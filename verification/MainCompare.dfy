/** blocksort.c, mainGtU: comparing two rotations byte by byte, helped by the quadrant values. The
    block and the quadrants are extended by their first OVERSHOOT entries so that most of the
    comparison need not wrap. */
module MainCompare {
  import opened Rotations

  const OVERSHOOT := 34

  /** blk is the block b followed by its own first 34 bytes. */
  ghost predicate Extended(blk: seq<int>, b: seq<int>) {
    |b| > OVERSHOOT && |blk| == |b| + OVERSHOOT && forall i :: 0 <= i < |blk| ==> blk[i] == b[Wrap(|b|, i)]
  }

  /** The place of index i, which may run over the end by less than a turn. */
  function Wrap(n: nat, i: int): (r: int)
    ensures 0 <= i < 2 * n ==> 0 <= r < n
  {
    if i < n then i else i - n
  }

  /** Where first bytes agree, different quadrant values tell the order of the rotations. */
  ghost predicate QuadrantsRight(b: seq<int>, q: seq<int>) {
    |b| > OVERSHOOT && |q| == |b| + OVERSHOOT && (forall i :: 0 <= i < |q| ==> q[i] == q[Wrap(|b|, i)]) &&
    forall x, y :: 0 <= x < |b| && 0 <= y < |b| && b[x] == b[y] && q[x] < q[y] ==> CmpRotations(b, x, y) <= 0
  }

  /** Comparing x with y has come to comparing x' with y' after t equal bytes. */
  ghost predicate Tied(b: seq<int>, x: nat, y: nat, t: nat, x': int, y': int) {
    x < |b| && y < |b| && 0 <= x' < |b| && 0 <= y' < |b| &&
    forall k: nat {:trigger Cmp(b, x', y', k)} :: Cmp(b, x, y, t + k) == Cmp(b, x', y', k)
  }

  lemma TiedStart(b: seq<int>, x: nat, y: nat, d: nat)
    requires x < |b| && y < |b| && d < |b| && Cmp(b, x, y, d) == 0
    ensures Tied(b, x, y, d, Wrap(|b|, x + d), Wrap(|b|, y + d))
  {
    forall k: nat {:trigger Cmp(b, Wrap(|b|, x + d), Wrap(|b|, y + d), k)}
      ensures Cmp(b, x, y, d + k) == Cmp(b, Wrap(|b|, x + d), Wrap(|b|, y + d), k)
    {
      CmpSplit(b, x, y, d, k);
    }
  }

  lemma TiedStep(b: seq<int>, x: nat, y: nat, t: nat, i1: nat, i2: nat)
    requires i1 < 2 * |b| - 1 && i2 < 2 * |b| - 1 && Tied(b, x, y, t, Wrap(|b|, i1), Wrap(|b|, i2))
    requires b[Wrap(|b|, i1)] == b[Wrap(|b|, i2)]
    ensures Tied(b, x, y, t + 1, Wrap(|b|, i1 + 1), Wrap(|b|, i2 + 1))
  {
    var n := |b|;
    var x', y' := Wrap(n, i1), Wrap(n, i2);
    assert Wrap(n, i1 + 1) == Next(n, x') && Wrap(n, i2 + 1) == Next(n, y');
    forall k: nat {:trigger Cmp(b, Next(n, x'), Next(n, y'), k)}
      ensures Cmp(b, x, y, t + 1 + k) == Cmp(b, Next(n, x'), Next(n, y'), k)
    {
      assert Cmp(b, x', y', k + 1) == Cmp(b, Next(n, x'), Next(n, y'), k);
      assert Cmp(b, x, y, t + (k + 1)) == Cmp(b, x', y', k + 1);
    }
  }

  /** What the comparison at x', y' says holds of x, y. */
  lemma TiedOrder(b: seq<int>, x: nat, y: nat, t: nat, x': nat, y': nat, k: nat)
    requires Tied(b, x, y, t, x', y') && (k > 0 || t >= |b|) && (k >= |b| || k == 1 || t >= |b|)
    ensures Cmp(b, x', y', k) < 0 ==> CmpRotations(b, x, y) <= 0
    ensures Cmp(b, x', y', k) > 0 ==> CmpRotations(b, x, y) >= 0
    ensures Cmp(b, x', y', k) == 0 && t + k >= |b| ==> CmpRotations(b, x, y) == 0
  {
    hide Cmp;
    assert Cmp(b, x, y, t + k) == Cmp(b, x', y', k);
    assert Cmp(b, x', y', 0) == 0 by { CmpNone(b, x', y'); }
    assert Cmp(b, x, y, t + 0) == 0;
    if t + k >= |b| {
      CmpPrefix(b, x, y, |b|, t + k);
    } else {
      CmpPrefix(b, x, y, t + k, |b|);
    }
  }

  lemma CmpNone(b: seq<int>, i: nat, j: nat)
    requires i < |b| && j < |b|
    ensures Cmp(b, i, j, 0) == 0
  {
  }

  /** Unequal bytes decide. */
  lemma ByteDecides(b: seq<int>, x: nat, y: nat, t: nat, i1: nat, i2: nat)
    requires i1 < 2 * |b| && i2 < 2 * |b| && Tied(b, x, y, t, Wrap(|b|, i1), Wrap(|b|, i2))
    requires b[Wrap(|b|, i1)] != b[Wrap(|b|, i2)]
    ensures b[Wrap(|b|, i1)] > b[Wrap(|b|, i2)] ==> CmpRotations(b, x, y) >= 0
    ensures b[Wrap(|b|, i1)] < b[Wrap(|b|, i2)] ==> CmpRotations(b, x, y) <= 0
  {
    assert Cmp(b, Wrap(|b|, i1), Wrap(|b|, i2), 1) != 0;
    TiedOrder(b, x, y, t, Wrap(|b|, i1), Wrap(|b|, i2), 1);
  }

  /** Unequal quadrants decide. */
  lemma QuadrantDecides(b: seq<int>, q: seq<int>, x: nat, y: nat, t: nat, i1: nat, i2: nat)
    requires QuadrantsRight(b, q) && i1 < |q| && i2 < |q|
    requires Tied(b, x, y, t, Wrap(|b|, i1), Wrap(|b|, i2)) && b[Wrap(|b|, i1)] == b[Wrap(|b|, i2)] && q[i1] != q[i2]
    ensures q[i1] > q[i2] ==> CmpRotations(b, x, y) >= 0
    ensures q[i1] < q[i2] ==> CmpRotations(b, x, y) <= 0
  {
    hide Cmp;
    var x', y' := Wrap(|b|, i1), Wrap(|b|, i2);
    assert q[i1] == q[x'] && q[i2] == q[y'];
    CmpAntisymmetric(b, x', y', |b|);
    TiedOrder(b, x, y, t, x', y', |b|);
    assert Cmp(b, x, y, t + |b|) == Cmp(b, x', y', |b|);
    CmpPrefix(b, x, y, |b|, t + |b|);
  }

  /** The answer gt is right for the rotations x and y. */
  ghost predicate Answer(b: seq<int>, x: nat, y: nat, gt: bool) {
    x < |b| && y < |b| && if gt then CmpRotations(b, x, y) >= 0 else CmpRotations(b, x, y) <= 0
  }

  lemma TiedAt(blk: seq<int>, b: seq<int>, x: nat, y: nat, t: nat, i1: nat, i2: nat)
    requires Extended(blk, b) && i1 < |blk| && i2 < |blk| && Tied(b, x, y, t, Wrap(|b|, i1), Wrap(|b|, i2))
    ensures x < |b| && y < |b| && blk[i1] == b[Wrap(|b|, i1)] && blk[i2] == b[Wrap(|b|, i2)]
    ensures i1 < 2 * |b| - 1 && i2 < 2 * |b| - 1
  {
  }

  lemma ByteAnswer(blk: seq<int>, b: seq<int>, x: nat, y: nat, t: nat, i1: nat, i2: nat)
    requires Extended(blk, b) && i1 < |blk| && i2 < |blk| && Tied(b, x, y, t, Wrap(|b|, i1), Wrap(|b|, i2))
    ensures blk[i1] != blk[i2] ==> Answer(b, x, y, blk[i1] > blk[i2])
    ensures blk[i1] == blk[i2] ==> Tied(b, x, y, t + 1, Wrap(|b|, i1 + 1), Wrap(|b|, i2 + 1))
  {
    TiedAt(blk, b, x, y, t, i1, i2);
    hide Tied;
    if blk[i1] == blk[i2] {
      TiedStep(b, x, y, t, i1, i2);
    } else {
      ByteDecides(b, x, y, t, i1, i2);
    }
  }

  lemma QuadrantAnswer(blk: seq<int>, b: seq<int>, q: seq<int>, x: nat, y: nat, t: nat, i1: nat, i2: nat)
    requires Extended(blk, b) && QuadrantsRight(b, q) && i1 < |blk| && i2 < |blk| && blk[i1] == blk[i2]
    requires Tied(b, x, y, t, Wrap(|b|, i1), Wrap(|b|, i2))
    ensures |q| == |blk| && (q[i1] != q[i2] ==> Answer(b, x, y, q[i1] > q[i2]))
  {
    TiedAt(blk, b, x, y, t, i1, i2);
    hide Tied;
    if q[i1] != q[i2] { QuadrantDecides(b, q, x, y, t, i1, i2); }
  }

  lemma NoneDiffers(b: seq<int>, x: nat, y: nat, t: nat, x': int, y': int)
    requires Tied(b, x, y, t, x', y') && t >= |b|
    ensures Answer(b, x, y, false)
  {
    TiedOrder(b, x, y, t, x', y', 0);
  }

  lemma ExtendedSize(blk: seq<int>, b: seq<int>)
    requires Extended(blk, b)
    ensures |b| > 34 && |blk| == |b| + 34
  {
  }

  lemma QuadrantsSize(b: seq<int>, q: seq<int>)
    requires QuadrantsRight(b, q)
    ensures |b| > 34 && |q| == |b| + 34
  {
  }

  /** The most one comparison takes from the budget. */
  ghost function Step(n: nat): nat { n / 8 + 2 }

  lemma StepIs(n: nat, rounds: int, k: int)
    requires 8 * rounds + k == n + 8 && k >= -8
    ensures rounds <= Step(n)
  {
  }

  /** mainGtU: is rotation x greater than y? Both are known to agree on d bytes, and i1, i2 are the
      places d bytes on. No index reaches nblock + 34. Rotations the quadrants have already put in
      order may be equal, so either answer is only claimed up to ties. */
  method GtU(i1': nat, i2': nat, block: array<int>, quadrant: array<int>, nblock: nat, budget: int,
             ghost b: seq<int>, ghost x: nat, ghost y: nat, ghost d: nat) returns (gt: bool, budget': int)
    requires |b| == nblock && Extended(block[..], b) && QuadrantsRight(b, quadrant[..])
    requires x < nblock && y < nblock && d <= 15 && i1' == x + d && i2' == y + d && Cmp(b, x, y, d) == 0
    ensures Answer(b, x, y, gt) && budget - Step(nblock) <= budget' <= budget
  {
    hide *;
    budget' := budget;
    ghost var blk, q := block[..], quadrant[..];
    ExtendedSize(blk, b);
    QuadrantsSize(b, q);
    var i1, i2 := i1', i2';
    ghost var t := d;
    TiedStart(b, x, y, d);
    StepIs(nblock, 0, nblock + 8);
    var c := 0;
    while c < 12   // unrolled in the source
      invariant 0 <= c <= 12 && i1 == x + d + c && i2 == y + d + c && t == d + c
      invariant Tied(b, x, y, t, Wrap(nblock, i1), Wrap(nblock, i2))
    {
      ByteAnswer(blk, b, x, y, t, i1, i2);
      var c1, c2 := block[i1], block[i2];
      if c1 != c2 { return c1 > c2, budget'; }
      i1, i2, t, c := i1 + 1, i2 + 1, t + 1, c + 1;
    }
    var k: int := nblock + 8;
    while true
      invariant 0 <= k <= nblock + 8 && 0 <= i1 <= nblock + 26 && 0 <= i2 <= nblock + 26 && t + k >= nblock + 8 + 12
      invariant Tied(b, x, y, t, Wrap(nblock, i1), Wrap(nblock, i2)) && budget' <= budget
      invariant 8 * (budget - budget') + k == nblock + 8
      decreases k
    {
      StepIs(nblock, budget - budget', k);
      c := 0;
      ghost var j1, j2, t0 := i1, i2, t;
      while c < 8   // unrolled in the source
        invariant 0 <= c <= 8 && i1 == j1 + c && i2 == j2 + c && t == t0 + c
        invariant Tied(b, x, y, t, Wrap(nblock, i1), Wrap(nblock, i2))
      {
        ByteAnswer(blk, b, x, y, t, i1, i2);
        var c1, c2 := block[i1], block[i2];
        if c1 != c2 { return c1 > c2, budget'; }
        QuadrantAnswer(blk, b, q, x, y, t, i1, i2);
        var s1, s2 := quadrant[i1], quadrant[i2];
        if s1 != s2 { return s1 > s2, budget'; }
        i1, i2, t, c := i1 + 1, i2 + 1, t + 1, c + 1;
      }
      WrapBack(nblock, i1);
      WrapBack(nblock, i2);
      if i1 >= nblock { i1 := i1 - nblock; }
      if i2 >= nblock { i2 := i2 - nblock; }
      k := k - 8;
      budget' := budget' - 1;
      StepIs(nblock, budget - budget', k);
      if k < 0 { break; }
    }
    NoneDiffers(b, x, y, t, Wrap(nblock, i1), Wrap(nblock, i2));
    gt := false;
  }

  lemma WrapBack(n: nat, i: nat)
    requires i < 2 * n
    ensures i >= n ==> Wrap(n, i - n) == Wrap(n, i)
  {
  }
}
