/** Small buckets of mainSort: rotations grouped by their first two bytes; and how a sorted run of
    rotations that begin with one byte yields sorted runs of their predecessors. */
module MainOrder {
  import opened Rotations
  import opened Counting
  import opened MainSimpleSort

  /** The first two bytes of rotation i. */
  function Pair(b: seq<int>, i: int): (k: int)
    requires 0 <= i < |b|
  {
    256 * b[i] + b[Next(|b|, i)]
  }

  ghost function Pairs(b: seq<int>): (s: seq<int>)
    ensures |s| == |b| && forall i :: 0 <= i < |b| ==> s[i] == Pair(b, i)
  {
    seq(|b|, i requires 0 <= i < |b| => Pair(b, i))
  }

  /** Where small bucket c begins. */
  ghost function Start(b: seq<int>, c: int): (p: nat)
    ensures p <= |b|
  {
    Less(Pairs(b), |b|, c)
  }

  ghost predicate In(b: seq<int>, c: int, p: int) {
    Start(b, c) <= p < Start(b, c + 1)
  }

  /** s lists every rotation once, each in its small bucket. */
  ghost predicate Bucketed(b: seq<int>, s: seq<int>) {
    IsPermutation(s, |b|) && forall p {:trigger s[p]} :: 0 <= p < |b| ==> In(b, Pair(b, s[p]), p)
  }

  /** Small bucket c is in rotation order. */
  ghost predicate Done(b: seq<int>, s: seq<int>, c: int) {
    InOrder(b, s, Start(b, c), Start(b, c + 1) - 1)
  }

  lemma PairRange(b: seq<int>, i: int)
    requires Keys(b, 256) && 0 <= i < |b|
    ensures 0 <= Pair(b, i) < 65536 && Pair(b, i) / 256 == b[i] && Pair(b, i) % 256 == b[Next(|b|, i)]
  {
  }

  lemma StartMonotone(b: seq<int>, c: int, d: int)
    requires c <= d
    ensures Start(b, c) <= Start(b, d)
  {
    LessMonotone(Pairs(b), |b|, c, d);
  }

  lemma StartEnds(b: seq<int>)
    requires Keys(b, 256)
    ensures Start(b, 0) == 0 && Start(b, 65536) == |b|
  {
    forall i | 0 <= i < |b| ensures 0 <= Pairs(b)[i] < 65536 { PairRange(b, i); }
    LessEnds(Pairs(b), |b|, 65536);
  }

  lemma InUnique(b: seq<int>, c: int, d: int, p: int)
    requires In(b, c, p) && In(b, d, p)
    ensures c == d
  {
    SlotUnique(Pairs(b), c, d, p);
  }

  lemma BucketSize(b: seq<int>, c: int)
    ensures Start(b, c + 1) - Start(b, c) == Count(Pairs(b), |b|, c)
  {
    LessStep(Pairs(b), |b|, c);
  }

  /** In a bucketed list the entries of bucket c are exactly the rotations with that pair. */
  lemma EntryPair(b: seq<int>, s: seq<int>, c: int, p: int)
    requires Bucketed(b, s) && In(b, c, p) && 0 <= p < |b|
    ensures 0 <= s[p] < |b| && Pair(b, s[p]) == c
  {
    InUnique(b, c, Pair(b, s[p]), p);
  }

  /* ---------- order by pairs ---------- */

  lemma PairOrder(b: seq<int>, x: int, y: int)
    requires Keys(b, 256) && |b| >= 2 && 0 <= x < |b| && 0 <= y < |b|
    ensures Pair(b, x) < Pair(b, y) ==> RotationOrder(b)(x, y)
    ensures Pair(b, x) == Pair(b, y) ==> Cmp(b, x, y, 2) == 0
  {
    PairRange(b, x);
    PairRange(b, y);
    var n := |b|;
    assert Cmp(b, Next(n, Next(n, x)), Next(n, Next(n, y)), 0) == 0;
    if Pair(b, x) < Pair(b, y) {
      assert Cmp(b, x, y, 2) < 0 by {
        if b[x] == b[y] { assert Cmp(b, Next(n, x), Next(n, y), 1) < 0; }
      }
      CmpPrefix(b, x, y, 2, n);
    } else if Pair(b, x) == Pair(b, y) {
      assert b[x] == b[y] && b[Next(n, x)] == b[Next(n, y)];
      assert Cmp(b, Next(n, x), Next(n, y), 1) == 0;
    }
  }

  /** Rotations in one small bucket agree on two bytes. */
  lemma BucketAgrees(b: seq<int>, s: seq<int>, c: int)
    requires Keys(b, 256) && |b| >= 2 && Bucketed(b, s)
    ensures Agree(b, s, Start(b, c), Start(b, c + 1) - 1, 2)
  {
    hide Cmp;
    hide Pair;
    StartMonotone(b, c, c + 1);
    var lo, hi := Start(b, c), Start(b, c + 1) - 1;
    forall p, q | lo <= p <= hi && lo <= q <= hi ensures Cmp(b, s[p], s[q], 2) == 0 {
      EntryPair(b, s, c, p);
      EntryPair(b, s, c, q);
      PairOrder(b, s[p], s[q]);
    }
  }

  /** A range of small buckets, each in order, is in order. */
  lemma BucketsInOrder(b: seq<int>, s: seq<int>, c0: int, c1: int)
    requires Keys(b, 256) && |b| >= 2 && Bucketed(b, s) && c0 <= c1 && forall c :: c0 <= c < c1 ==> Done(b, s, c)
    ensures InOrder(b, s, Start(b, c0), Start(b, c1) - 1)
  {
    hide RotationOrder;
    hide Pair;
    forall p, q | Start(b, c0) <= p < q <= Start(b, c1) - 1 ensures RotationOrder(b)(s[p], s[q]) {
      var c, d := Pair(b, s[p]), Pair(b, s[q]);
      assert In(b, c, p) && In(b, d, q);
      if c < d {
        PairOrder(b, s[p], s[q]);
      } else if d < c {
        StartMonotone(b, d + 1, c);
        assert false;
      } else {
        if c < c0 { StartMonotone(b, c + 1, c0); }
        if c >= c1 { StartMonotone(b, c1, c); }
        assert Done(b, s, c);
      }
    }
  }

  /* ---------- predecessors ---------- */

  /** The predecessors, in order, of those rotations in v that are preceded by the byte c. */
  ghost function Preds(b: seq<int>, v: seq<int>, c: int): (r: seq<int>)
    requires Rots(b, v)
  {
    if v == [] then []
    else Preds(b, v[..|v| - 1], c) + Pred(b, v[|v| - 1], c)
  }

  ghost function Pred(b: seq<int>, x: int, c: int): (r: seq<int>)
    requires 0 <= x < |b|
  {
    if b[Prev(|b|, x)] == c then [Prev(|b|, x)] else []
  }

  ghost predicate Rots(b: seq<int>, v: seq<int>) {
    forall i :: 0 <= i < |v| ==> 0 <= v[i] < |b|
  }

  lemma {:induction false} PredsConcat(b: seq<int>, u: seq<int>, v: seq<int>, c: int)
    requires Rots(b, u) && Rots(b, v)
    ensures Rots(b, u + v) && Preds(b, u + v, c) == Preds(b, u, c) + Preds(b, v, c)
    decreases |v|
  {
    hide *;
    if v == [] {
      assert u + v == u;
      PredsNone(b, c);
      assert Preds(b, u, c) + [] == Preds(b, u, c);
    } else {
      var v', x := v[..|v| - 1], v[|v| - 1];
      RotsInit(b, v);
      PredsConcat(b, u, v', c);
      PredsConcatLast(b, u, v', x, c);
      assert v' + [x] == v;
    }
  }

  lemma PredsNone(b: seq<int>, c: int)
    ensures Rots(b, []) && Preds(b, [], c) == []
  {
  }

  lemma RotsInit(b: seq<int>, v: seq<int>)
    requires Rots(b, v) && v != []
    ensures Rots(b, v[..|v| - 1]) && 0 <= v[|v| - 1] < |b|
  {
  }

  lemma PredsConcatLast(b: seq<int>, u: seq<int>, v: seq<int>, x: int, c: int)
    requires Rots(b, u) && Rots(b, v) && 0 <= x < |b| && Rots(b, u + v) &&
      Preds(b, u + v, c) == Preds(b, u, c) + Preds(b, v, c)
    ensures Rots(b, v + [x]) && Rots(b, u + (v + [x])) &&
      Preds(b, u + (v + [x]), c) == Preds(b, u, c) + Preds(b, v + [x], c)
  {
    hide *;
    PredsLast(b, v, x, c);
    PredsLast(b, u + v, x, c);
    assert u + (v + [x]) == (u + v) + [x];
    Assoc(Preds(b, u, c), Preds(b, v, c), Pred(b, x, c));
  }

  lemma Assoc(x: seq<int>, y: seq<int>, z: seq<int>)
    ensures x + y + z == x + (y + z)
  {
  }

  lemma PredsLast(b: seq<int>, v: seq<int>, x: int, c: int)
    requires Rots(b, v) && 0 <= x < |b|
    ensures Rots(b, v + [x]) && Preds(b, v + [x], c) == Preds(b, v, c) + Pred(b, x, c)
  {
    assert (v + [x])[..|v + [x]| - 1] == v;
  }

  lemma PredsOne(b: seq<int>, x: int, c: int)
    requires 0 <= x < |b|
    ensures Preds(b, [x], c) == Pred(b, x, c)
  {
    assert [x][..0] == [];
  }

  /** How rotation x compares with the string of ss only, over k bytes. */
  ghost function Side(b: seq<int>, ss: int, x: int, k: nat): (r: int)
    requires 0 <= x < |b|
    decreases k
  {
    if k == 0 then 0 else if b[x] < ss then -1 else if b[x] > ss then 1 else Side(b, ss, Next(|b|, x), k - 1)
  }

  /** A rotation below the ss-only string comes before one above it. */
  lemma {:induction false} SideOrder(b: seq<int>, ss: int, x: int, y: int, k: nat)
    requires 0 <= x < |b| && 0 <= y < |b| && Side(b, ss, x, k) < 0 < Side(b, ss, y, k)
    ensures Cmp(b, x, y, k) < 0
    decreases k
  {
    if k > 0 && b[x] == b[y] { SideOrder(b, ss, Next(|b|, x), Next(|b|, y), k - 1); }
  }

  lemma {:induction false} SideMore(b: seq<int>, ss: int, x: int, k: nat, m: nat)
    requires 0 <= x < |b| && k <= m && Side(b, ss, x, k) != 0
    ensures Side(b, ss, x, m) == Side(b, ss, x, k)
    decreases k
  {
    if k > 0 && b[x] == ss { SideMore(b, ss, Next(|b|, x), k - 1, m - 1); }
  }

  /** Equal to the ss-only string for k bytes: those bytes are ss. */
  lemma {:induction false} SideZero(b: seq<int>, ss: int, x: nat, k: nat, i: nat)
    requires x < |b| && i < k <= |b| && Side(b, ss, x, k) == 0
    ensures b[Advance(|b|, x, i)] == ss
    decreases k
  {
    if i > 0 {
      SideZero(b, ss, Next(|b|, x), k - 1, i - 1);
      assert Advance(|b|, Next(|b|, x), i - 1) == Advance(|b|, x, i);
    }
  }

  /** A whole turn of ss: the block has no other byte. */
  lemma SideZeroAll(b: seq<int>, ss: int, x: nat, y: nat)
    requires x < |b| && y < |b| && Side(b, ss, x, |b|) == 0
    ensures b[y] == ss
  {
    var i := if y >= x then y - x else y + |b| - x;
    SideZero(b, ss, x, |b|, i);
    assert Advance(|b|, x, i) == y;
  }

  /** Putting ss in front does not change the side. */
  lemma SidePrev(b: seq<int>, ss: int, x: int)
    requires 0 <= x < |b| && b[Prev(|b|, x)] == ss
    ensures Side(b, ss, Prev(|b|, x), |b|) == Side(b, ss, x, |b|)
  {
    var n := |b|;
    assert Next(n, Prev(n, x)) == x;
    assert Side(b, ss, Prev(n, x), n) == Side(b, ss, x, n - 1);
    if Side(b, ss, x, n - 1) != 0 {
      SideMore(b, ss, x, n - 1, n);
    } else {
      SideSplit(b, ss, x, n - 1, 1);
      assert Advance(n, x, n - 1) == Prev(n, x);
    }
  }

  lemma {:induction false} SideSplit(b: seq<int>, ss: int, x: nat, h: nat, k: nat)
    requires x < |b| && h <= |b|
    ensures Side(b, ss, x, h + k) == if Side(b, ss, x, h) != 0 then Side(b, ss, x, h)
      else Side(b, ss, Advance(|b|, x, h), k)
    decreases h
  {
    if h != 0 && b[x] == ss {
      SideSplit(b, ss, Next(|b|, x), h - 1, k);
      assert Advance(|b|, Next(|b|, x), h - 1) == Advance(|b|, x, h);
    }
  }

  /** With the same byte in front the order stays. */
  lemma PredOrder(b: seq<int>, x: int, y: int)
    requires 0 <= x < |b| && 0 <= y < |b| && b[x] == b[y] && RotationOrder(b)(Next(|b|, x), Next(|b|, y))
    ensures RotationOrder(b)(x, y)
  {
    var n := |b|;
    assert Cmp(b, x, y, n + 1) == Cmp(b, Next(n, x), Next(n, y), n);
    CmpPrefix(b, x, y, n, n + 1);
  }

  /* ---------- swept runs ---------- */

  /** v: rotations that begin with ss, on one side of the ss-only string, different and in order. */
  ghost predicate Swept(b: seq<int>, ss: int, side: int, v: seq<int>) {
    Rots(b, v) && (forall i :: 0 <= i < |v| ==> b[v[i]] == ss && Side(b, ss, v[i], |b|) == side) &&
    (forall i, j :: 0 <= i < j < |v| ==> v[i] != v[j] && RotationOrder(b)(v[i], v[j]))
  }

  /** r: rotations with first bytes c, ss whose successors are on the given side, different and in order. */
  ghost predicate Drawn(b: seq<int>, ss: int, side: int, c: int, r: seq<int>) {
    Rots(b, r) &&
    (forall i ::
    0 <= i < |r| ==> b[r[i]] == c && b[Next(|b|, r[i])] == ss && Side(b, ss, Next(|b|, r[i]), |b|) == side) &&
    (forall i, j :: 0 <= i < j < |r| ==> r[i] != r[j] && RotationOrder(b)(r[i], r[j]))
  }

  /** The predecessors come from v, and all of them are there. */
  lemma {:induction false} PredsFrom(b: seq<int>, v: seq<int>, c: int, y: int)
    requires Rots(b, v)
    ensures y in Preds(b, v, c) <==> 0 <= y < |b| && b[y] == c && Next(|b|, y) in v
    decreases |v|
  {
    if v != [] {
      var v', x := v[..|v| - 1], v[|v| - 1];
      PredsFrom(b, v', c, y);
      assert v == v' + [x];
      if 0 <= y < |b| && Next(|b|, y) == x { NextPrev(|b|, y); }
    }
  }

  lemma NextPrev(n: nat, y: int)
    requires 0 <= y < n
    ensures Prev(n, Next(n, y)) == y
  {
  }

  /** If v comes before x, then v's predecessors come before x's. */
  lemma PredsBefore(b: seq<int>, v: seq<int>, x: int, c: int)
    requires Rots(b, v) && 0 <= x < |b| && b[Prev(|b|, x)] == c
    requires forall i :: 0 <= i < |v| ==> v[i] != x && RotationOrder(b)(v[i], x)
    ensures forall y :: y in Preds(b, v, c) ==> y != Prev(|b|, x) && RotationOrder(b)(y, Prev(|b|, x))
  {
    forall y | y in Preds(b, v, c) ensures y != Prev(|b|, x) && RotationOrder(b)(y, Prev(|b|, x)) {
      PredsFrom(b, v, c, y);
      PredOrder(b, y, Prev(|b|, x));
    }
  }

  lemma {:induction false} PredsDrawn(b: seq<int>, ss: int, side: int, v: seq<int>, c: int)
    requires Swept(b, ss, side, v)
    ensures Drawn(b, ss, side, c, Preds(b, v, c))
    decreases |v|
  {
    if v != [] {
      var v', x := v[..|v| - 1], v[|v| - 1];
      assert v == v' + [x];
      PredsDrawn(b, ss, side, v', c);
      var r, y := Preds(b, v', c), Prev(|b|, x);
      if b[y] == c {
        PredsBefore(b, v', x, c);
        forall i | 0 <= i < |r| ensures r[i] != y && RotationOrder(b)(r[i], y) { assert r[i] in r; }
      }
    }
  }

  /* ---------- how many ---------- */

  /** Different rotations with one pair are no more than its bucket holds. */
  lemma PairsBound(b: seq<int>, r: seq<int>, k: int)
    requires Rots(b, r) && (forall i :: 0 <= i < |r| ==> Pair(b, r[i]) == k) &&
      (forall i, j :: 0 <= i < j < |r| ==> r[i] != r[j])
    ensures |r| <= Start(b, k + 1) - Start(b, k)
  {
    var t, all := set i | 0 <= i < |r| :: r[i], set x | 0 <= x < |b| && Pairs(b)[x] == k;
    DistinctSize(r, |r|);
    CountIsSize(Pairs(b), |b|, k);
    BucketSize(b, k);
    SubsetSize(t, all);
  }

  /** If none is missing they are as many. */
  lemma PairsAll(b: seq<int>, r: seq<int>, k: int)
    requires Rots(b, r) && (forall i :: 0 <= i < |r| ==> Pair(b, r[i]) == k) &&
      (forall i, j :: 0 <= i < j < |r| ==> r[i] != r[j])
    requires forall x :: 0 <= x < |b| && Pair(b, x) == k ==> x in r
    ensures |r| == Start(b, k + 1) - Start(b, k)
  {
    var t, all := set i | 0 <= i < |r| :: r[i], set x | 0 <= x < |b| && Pairs(b)[x] == k;
    DistinctSize(r, |r|);
    CountIsSize(Pairs(b), |b|, k);
    BucketSize(b, k);
    forall x | x in all ensures x in t {
      assert Pair(b, x) == k;
      assert x in r;
      var i :| 0 <= i < |r| && r[i] == x;
    }
    assert t == all;
  }
}
