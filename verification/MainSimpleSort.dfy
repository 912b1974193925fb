/** blocksort.c, mainSimpleSort: Shell sort of a stretch of ptr whose rotations agree on d bytes. */
module MainSimpleSort {
  import opened Rotations
  import opened RangePermutation
  import opened MainCompare

  const INCS: seq<int> := [1, 4, 13, 40, 121, 364, 1093, 3280, 9841, 29524, 88573, 265720, 797161, 2391484]

  /** x comes no later than y. */
  ghost function RotationOrder(b: seq<int>): (int, int) -> bool {
    (x, y) => 0 <= x < |b| && 0 <= y < |b| && CmpRotations(b, x, y) <= 0
  }

  /** Entries lo..hi are rotations that agree on their first d bytes. */
  ghost predicate Agree(b: seq<int>, s: seq<int>, lo: int, hi: int, d: nat) {
    0 <= lo <= hi + 1 <= |s| && (forall p :: lo <= p <= hi ==> 0 <= s[p] < |b|) &&
    forall p, q :: lo <= p <= hi && lo <= q <= hi ==> Cmp(b, s[p], s[q], d) == 0
  }

  /** Entries lo..hi are in order. */
  ghost predicate InOrder(b: seq<int>, s: seq<int>, lo: int, hi: int) {
    forall p, q :: 0 <= lo <= p < q <= hi < |s| ==> RotationOrder(b)(s[p], s[q])
  }

  /** Only lo..hi rearranged; entries there agree on d bytes. */
  ghost predicate Held(b: seq<int>, s: seq<int>, was: seq<int>, lo: int, hi: int, d: nat) {
    RangePerm(s, was, lo, hi) && Agree(b, s, lo, hi, d)
  }

  lemma AgreePerm(b: seq<int>, s: seq<int>, t: seq<int>, lo: int, hi: int, d: nat)
    requires RangePerm(s, t, lo, hi) && Agree(b, t, lo, hi, d)
    ensures Agree(b, s, lo, hi, d)
  {
    forall p | lo <= p <= hi ensures 0 <= s[p] < |b| {
      var p' := PermSource(s, t, lo, hi, p);
    }
    forall p, q | lo <= p <= hi && lo <= q <= hi ensures Cmp(b, s[p], s[q], d) == 0 {
      var p' := PermSource(s, t, lo, hi, p);
      var q' := PermSource(s, t, lo, hi, q);
      assert Cmp(b, t[p'], t[q'], d) == 0;
    }
  }

  lemma HeldStart(b: seq<int>, s: seq<int>, lo: int, hi: int, d: nat)
    requires Agree(b, s, lo, hi, d)
    ensures Held(b, s, s, lo, hi, d)
  {
    PermRefl(s, lo, hi);
  }

  lemma HeldBounds(b: seq<int>, s: seq<int>, was: seq<int>, lo: int, hi: int, d: nat)
    requires Held(b, s, was, lo, hi, d)
    ensures 0 <= lo <= hi + 1 <= |s| == |was| && RangePerm(s, was, lo, hi) && Agree(b, s, lo, hi, d)
  {
  }

  lemma HeldPair(b: seq<int>, s: seq<int>, was: seq<int>, lo: int, hi: int, d: nat, p: int, q: int)
    requires Held(b, s, was, lo, hi, d) && lo <= p <= hi && lo <= q <= hi
    ensures 0 <= p < |s| && 0 <= q < |s| && 0 <= s[p] < |b| && 0 <= s[q] < |b| && Cmp(b, s[p], s[q], d) == 0
  {
  }

  /** Two entries exchanged. */
  ghost function Exchanged(s: seq<int>, i: int, k: int): (t: seq<int>)
    requires 0 <= i < |s| && 0 <= k < |s|
  {
    s[i := s[k]][k := s[i]]
  }

  lemma HeldSwap(b: seq<int>, s: seq<int>, was: seq<int>, lo: int, hi: int, d: nat, i: int, k: int)
    requires Held(b, s, was, lo, hi, d) && lo <= i <= hi && lo <= k <= hi
    ensures 0 <= i < |s| && 0 <= k < |s| && Held(b, Exchanged(s, i, k), was, lo, hi, d)
  {
    HeldBounds(b, s, was, lo, hi, d);
    hide Held;
    PermSwap(s, i, k, lo, hi);
    PermTransitive(Exchanged(s, i, k), s, was, lo, hi);
    AgreePerm(b, Exchanged(s, i, k), s, lo, hi, d);
    HeldIntro(b, Exchanged(s, i, k), was, lo, hi, d);
  }

  lemma HeldIntro(b: seq<int>, s: seq<int>, was: seq<int>, lo: int, hi: int, d: nat)
    requires RangePerm(s, was, lo, hi) && Agree(b, s, lo, hi, d)
    ensures Held(b, s, was, lo, hi, d)
  {
  }

  lemma OrderTransitive(b: seq<int>, x: int, y: int, z: int)
    requires RotationOrder(b)(x, y) && RotationOrder(b)(y, z)
    ensures RotationOrder(b)(x, z)
  {
    CmpTransitive(b, x, y, z, |b|);
  }

  /* ---------- insertion ---------- */

  /** Entries below i are sorted, when the step is 1. */
  ghost predicate SortedBelow(b: seq<int>, s: seq<int>, h: int, lo: int, i: int) {
    h == 1 ==> InOrder(b, s, lo, i - 1)
  }

  /** While the entry from i is being inserted, the hole at `hole`: the others are in order, and
      those already passed come no earlier. Only claimed for step 1. */
  ghost predicate Inserting(b: seq<int>, v: seq<int>, h: int, lo: int, i: int, hole: int) {
    h == 1 ==>
      0 <= lo <= hole <= i < |v| &&
      (forall p, q :: lo <= p < q <= i && p != hole && q != hole ==> RotationOrder(b)(v[p], v[q])) &&
      (forall q :: hole < q <= i ==> RotationOrder(b)(v[hole], v[q]))
  }

  lemma InsertStart(b: seq<int>, s: seq<int>, h: int, lo: int, i: int)
    requires SortedBelow(b, s, h, lo, i) && 0 <= lo <= i < |s|
    ensures Inserting(b, s, h, lo, i, i)
  {
  }

  lemma InsertStep(b: seq<int>, v: seq<int>, h: int, lo: int, i: int, hole: int)
    requires Inserting(b, v, h, lo, i, hole) && h >= 1 && 0 <= lo <= hole - h && hole <= i < |v|
    requires RotationOrder(b)(v[hole], v[hole - h])
    ensures Inserting(b, Exchanged(v, hole, hole - h), h, lo, i, hole - h)
  {
    hide RotationOrder;
    if h == 1 {
      var w := Exchanged(v, hole, hole - 1);
      forall p, q | lo <= p < q <= i && p != hole - 1 && q != hole - 1 ensures RotationOrder(b)(w[p], w[q]) {
        if p == hole {
          assert RotationOrder(b)(v[hole - 1], v[q]);
        } else if q == hole {
          assert RotationOrder(b)(v[p], v[hole - 1]);
        }
      }
    }
  }

  lemma InsertEnd(b: seq<int>, v: seq<int>, h: int, lo: int, i: int, hole: int)
    requires Inserting(b, v, h, lo, i, hole) && h >= 1 && 0 <= lo <= hole <= i < |v|
    requires hole <= lo + h - 1 || RotationOrder(b)(v[hole - h], v[hole])
    ensures SortedBelow(b, v, h, lo, i + 1)
  {
    hide RotationOrder;
    if h == 1 {
      forall p, q | 0 <= lo <= p < q <= i < |v| ensures RotationOrder(b)(v[p], v[q]) {
        if q == hole && p < hole - 1 {
          assert RotationOrder(b)(v[p], v[hole - 1]);
          OrderTransitive(b, v[p], v[hole - 1], v[hole]);
        }
      }
    }
  }

  lemma AnswerOrder(b: seq<int>, x: nat, y: nat, gt: bool)
    requires Answer(b, x, y, gt)
    ensures if gt then RotationOrder(b)(y, x) else RotationOrder(b)(x, y)
  {
    CmpAntisymmetric(b, x, y, |b|);
  }

  /** Filling the hole at p with the entry at q moves the hole to q. */
  lemma HoleMoves(s: seq<int>, v: seq<int>, p: int, q: int, tmp: int)
    requires 0 <= p < |s| && 0 <= q < |s| && p != q && v == s[p := tmp]
    ensures Exchanged(v, p, q) == s[p := s[q]][q := tmp]
  {
  }

  /** What the comparisons need: the extended block and right quadrants. */
  ghost predicate Comparable(b: seq<int>, blk: seq<int>, q: seq<int>) {
    Extended(blk, b) && QuadrantsRight(b, q)
  }

  /* ---------- the budget ---------- */

  ghost function Times(a: nat, k: nat): nat { a * k }

  lemma TimesMore(a: nat, k: nat, k': nat)
    requires k + 1 <= k'
    ensures Times(a, k) + a <= Times(a, k')
  {
    assert a * (k + 1) == a * k + a;
    TimesGrows(a, a, k + 1, k');
  }

  lemma TimesGrows(a: nat, a': nat, k: nat, k': nat)
    requires a <= a' && k <= k'
    ensures Times(a, k) <= Times(a', k') && Times(a, 0) == 0
  {
    assert a' * k' == a' * k + a' * (k' - k);
    assert a' * k == a * k + (a' - a) * k;
  }

  /** What a stretch of len entries of a block of n takes at most from the budget. */
  ghost function Charge(n: nat, len: nat): nat {
    Times(Times(Times(Step(n), n), 13), len)
  }

  /** How many entries there are from lo to hi. */
  ghost function Len(lo: int, hi: int): nat { if hi < lo then 0 else hi - lo + 1 }

  /** Thirteen passes over a stretch no longer than the block. */
  lemma PassesCharge(n: nat, len: nat)
    requires len <= n
    ensures Times(Times(Times(Step(n), len), len), 13) <= Charge(n, len)
  {
    hide Step;
    TimesGrows(Step(n), Step(n), len, n);
    var a, b := Times(Step(n), len), Times(Step(n), n);
    TimesGrows(a, b, len, len);
    assert a * len * 13 <= b * len * 13;
    assert b * len * 13 == b * 13 * len;
  }

  /** Does the entry at i come after the one at j, where v belongs for now? */
  method Compare(ptr: array<int>, block: array<int>, quadrant: array<int>, nblock: nat, i: int, j: int, v: int, d: nat,
      budget: int,
                 ghost b: seq<int>, ghost s: seq<int>, ghost was: seq<int>, ghost lo: int, ghost hi: int)
                   returns (gt: bool, budget': int)
    requires |b| == nblock && Comparable(b, block[..], quadrant[..]) && d <= 15
    requires 0 <= lo <= i < j <= hi && j < ptr.Length && s == ptr[..][j := v] && Held(b, s, was, lo, hi, d)
    ensures (if gt then RotationOrder(b)(s[j], s[i]) else RotationOrder(b)(s[i], s[j])) &&
      budget - Step(nblock) <= budget' <= budget
  {
    assert Extended(block[..], b) && QuadrantsRight(b, quadrant[..]);
    hide *;
    HeldPair(b, s, was, lo, hi, d, i, j);
    assert s[i] == ptr[i] && s[j] == v;
    gt, budget' := GtU(ptr[i] + d, v + d, block, quadrant, nblock, budget, b, ptr[i], v, d);
    AnswerOrder(b, ptr[i], v, gt);
  }

  /** One entry is inserted among those h apart below it. */
  method InsertOne(ptr: array<int>, block: array<int>, quadrant: array<int>, nblock: nat, lo: int, hi: int, d: nat,
      h: int, i: int,
                   budget: int, ghost b: seq<int>, ghost was: seq<int>) returns (budget': int)
    requires ptr != block && ptr != quadrant && |b| == nblock && Comparable(b, block[..], quadrant[..])
    requires d <= 15 && h >= 1 && lo + h <= i <= hi && Held(b, ptr[..], was, lo, hi, d)
    requires SortedBelow(b, ptr[..], h, lo, i)
    modifies ptr
    ensures Held(b, ptr[..], was, lo, hi, d) && SortedBelow(b, ptr[..], h, lo, i + 1) && budget' <= budget
    ensures budget' >= budget - Times(Step(nblock), i - lo)
  {
    hide *;
    TimesGrows(Step(nblock), Step(nblock), 0, 0);
    HeldBounds(b, ptr[..], was, lo, hi, d);
    InsertStart(b, ptr[..], h, lo, i);
    budget' := budget;
    var v := ptr[i];
    var j := i;
    ghost var s, blk, qd := ptr[..], block[..], quadrant[..];
    while true
      invariant lo + h <= j <= i && budget' <= budget && ptr.Length == |s|
      invariant budget' >= budget - Times(Step(nblock), i - j)
      invariant s == ptr[..][j := v] && block[..] == blk && quadrant[..] == qd
      invariant Held(b, s, was, lo, hi, d) && Inserting(b, s, h, lo, i, j)
      decreases j
    {
      var gt;
      gt, budget' := Compare(ptr, block, quadrant, nblock, j - h, j, v, d, budget', b, s, was, lo, hi);
      TimesMore(Step(nblock), i - j, i - lo);
      if !gt { break; }
      TimesMore(Step(nblock), i - j, i - (j - h));
      TimesGrows(Step(nblock), Step(nblock), i - (j - h), i - lo);
      InsertStep(b, s, h, lo, i, j);
      HeldSwap(b, s, was, lo, hi, d, j, j - h);
      HoleMoves(ptr[..], s, j, j - h, v);
      s := Exchanged(s, j, j - h);
      ptr[j] := ptr[j - h];
      j := j - h;
      if j <= lo + h - 1 { break; }
    }
    InsertEnd(b, s, h, lo, i, j);
    ptr[j] := v;
  }

  /* ---------- the passes ---------- */

  lemma PassStart(b: seq<int>, s: seq<int>, h: int, lo: int)
    ensures SortedBelow(b, s, h, lo, lo + h)
  {
  }

  /** One pass with step h; given up when the budget has run out. A finished pass with step 1 leaves
      the stretch sorted. */
  method Pass(ptr: array<int>, block: array<int>, quadrant: array<int>, nblock: nat, lo: int, hi: int, d: nat, h: int,
              budget: int, ghost b: seq<int>, ghost was: seq<int>) returns (budget': int, abandoned: bool)
    requires ptr != block && ptr != quadrant && |b| == nblock && Comparable(b, block[..], quadrant[..])
    requires d <= 15 && h >= 1 && Held(b, ptr[..], was, lo, hi, d) && lo + h <= hi + 1 && lo <= hi
    modifies ptr
    ensures Held(b, ptr[..], was, lo, hi, d) && budget' <= budget && (abandoned ==> budget' < 0)
    ensures h == 1 && !abandoned ==> InOrder(b, ptr[..], lo, hi)
    ensures lo <= hi && budget' >= budget - Times(Times(Step(nblock), hi - lo + 1), hi - lo + 1)
  {
    hide *;
    ghost var most := Times(Step(nblock), hi - lo + 1);
    TimesGrows(most, most, 0, hi - lo + 1);
    budget', abandoned := budget, false;
    var i := lo + h;
    PassStart(b, ptr[..], h, lo);
    ghost var blk, qd := block[..], quadrant[..];
    while true
      invariant lo + h <= i <= hi + 1 && budget' <= budget && block[..] == blk && quadrant[..] == qd
      invariant Held(b, ptr[..], was, lo, hi, d) && SortedBelow(b, ptr[..], h, lo, i)
      invariant budget' >= budget - Times(most, i - lo - h)
      decreases hi - i
    {
      TimesGrows(most, most, i - lo - h, hi - lo + 1);
      if i > hi { break; }
      PassCharge(nblock, lo, hi, i, h);
      budget' := InsertOne(ptr, block, quadrant, nblock, lo, hi, d, h, i, budget', b, was);
      i := i + 1;
      TimesGrows(most, most, i - lo - h, hi - lo + 1);
      if i > hi { break; }
      PassCharge(nblock, lo, hi, i, h);
      budget' := InsertOne(ptr, block, quadrant, nblock, lo, hi, d, h, i, budget', b, was);
      i := i + 1;
      TimesGrows(most, most, i - lo - h, hi - lo + 1);
      if i > hi { break; }
      PassCharge(nblock, lo, hi, i, h);
      budget' := InsertOne(ptr, block, quadrant, nblock, lo, hi, d, h, i, budget', b, was);
      i := i + 1;
      TimesGrows(most, most, i - lo - h, hi - lo + 1);
      if budget' < 0 { return budget', true; }
    }
    PassDone(b, ptr[..], h, lo, hi, i);
  }

  /** One insertion of a pass. */
  lemma PassCharge(n: nat, lo: int, hi: int, i: int, h: int)
    requires lo + h <= i <= hi && h >= 1
    ensures var most := Times(Step(n), hi - lo + 1);
      Times(Step(n), i - lo) <= most && Times(most, i - lo - h) + most <= Times(most, i + 1 - lo - h)
  {
    hide *;
    var most := Times(Step(n), hi - lo + 1);
    TimesGrows(Step(n), Step(n), i - lo, hi - lo + 1);
    TimesMore(most, i - lo - h, i + 1 - lo - h);
  }

  lemma PassDone(b: seq<int>, s: seq<int>, h: int, lo: int, hi: int, i: int)
    requires SortedBelow(b, s, h, lo, i) && i == hi + 1
    ensures h == 1 ==> InOrder(b, s, lo, hi)
  {
  }

  lemma ShortInOrder(b: seq<int>, s: seq<int>, lo: int, hi: int)
    requires hi <= lo
    ensures InOrder(b, s, lo, hi)
  {
  }

  /** The increment to start with: the greatest below the size, 1 being the least. */
  method FirstIncrement(bigN: int) returns (hp: int)
    requires 2 <= bigN <= 2391484
    ensures 0 <= hp < |INCS| - 1 && forall k :: 0 <= k <= hp ==> 1 <= INCS[k] < bigN
    ensures INCS[0] == 1
  {
    hp := 0;
    while INCS[hp] < bigN
      invariant 0 <= hp < |INCS| && forall k :: 0 <= k < hp ==> 1 <= INCS[k] < bigN
      decreases |INCS| - hp
    {
      hp := hp + 1;
    }
    hp := hp - 1;
  }

  lemma LenIs(lo: int, hi: int)
    ensures Len(lo, hi) == (if hi < lo then 0 else hi - lo + 1)
  {
  }

  lemma IncsSize()
    ensures |INCS| == 14
  {
  }

  /** mainSimpleSort. Unless the budget has run out the stretch ends up in rotation order. */
  method SimpleSort(ptr: array<int>, block: array<int>, quadrant: array<int>, nblock: nat, lo: int, hi: int, d: nat,
                    budget: int, ghost b: seq<int>) returns (budget': int)
    requires ptr != block && ptr != quadrant && |b| == nblock && Comparable(b, block[..], quadrant[..])
    requires d <= 15 && hi - lo + 1 <= 2391484 && Agree(b, ptr[..], lo, hi, d)
    modifies ptr
    ensures Held(b, ptr[..], old(ptr[..]), lo, hi, d) && budget' <= budget
    ensures budget' >= 0 ==> InOrder(b, ptr[..], lo, hi)
    ensures Len(lo, hi) <= nblock ==> budget' >= budget - Charge(nblock, Len(lo, hi))
  {
    hide *;
    LenIs(lo, hi);
    ghost var was, blk, qd := ptr[..], block[..], quadrant[..];
    HeldStart(b, was, lo, hi, d);
    budget' := budget;
    var bigN := hi - lo + 1;
    if bigN < 2 {
      ShortInOrder(b, ptr[..], lo, hi);
      return;
    }
    var hp := FirstIncrement(bigN);
    ghost var pass := Times(Times(Step(nblock), bigN), bigN);
    TimesGrows(pass, pass, 0, 13);
    IncsSize();
    if bigN <= nblock { PassesCharge(nblock, bigN); }
    while hp >= 0
      invariant -1 <= hp < |INCS| && budget' <= budget && block[..] == blk && quadrant[..] == qd
      invariant forall k :: 0 <= k <= hp ==> 1 <= INCS[k] < bigN
      invariant Held(b, ptr[..], was, lo, hi, d)
      invariant hp < 0 ==> InOrder(b, ptr[..], lo, hi)
      invariant hp <= 12 && budget' >= budget - Times(pass, 12 - hp)
    {
      TimesMore(pass, 12 - hp, 13 - hp);
      TimesGrows(pass, pass, 13 - hp, 13);
      var abandoned;
      budget', abandoned := Pass(ptr, block, quadrant, nblock, lo, hi, d, INCS[hp], budget', b, was);
      if abandoned { return; }
      hp := hp - 1;
    }
  }
}
