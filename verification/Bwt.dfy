/** The Burrows-Wheeler transform and why following the inverse vector undoes it, for every
    rotation order - also when a periodic block has equal rotations, listed in any order. */
module Bwt {
  import opened Rotations
  import opened Counting

  /** What the compressor codes: the byte before each rotation, in sorted order. */
  ghost function LastColumn(b: seq<int>, p: seq<int>): (l: seq<int>)
    requires IsPermutation(p, |b|)
    ensures |l| == |b| && forall i :: 0 <= i < |b| ==> l[i] == b[Prev(|b|, p[i])]
  {
    seq(|b|, i requires 0 <= i < |b| => b[Prev(|b|, p[i])])
  }

  lemma PrevNext(n: nat, i: nat)
    requires i < n
    ensures Prev(n, Next(n, i)) == i
  {
  }

  /** The rows preceding each listed rotation, as a permutation. */
  ghost function Preceding(n: nat, p: seq<int>): (r: seq<int>)
    requires IsPermutation(p, n)
    ensures IsPermutation(r, n) && forall i :: 0 <= i < n ==> r[i] == Prev(n, p[i])
  {
    var r := seq(n, i requires 0 <= i < n => Prev(n, p[i]));
    assert forall i, j :: 0 <= i < j < n ==> p[i] != p[j] ==> Next(n, Prev(n, p[i])) != Next(n, Prev(n, p[j]));
    r
  }

  /** The last column has the same bytes as the block. */
  lemma LastColumnCounts(b: seq<int>, p: seq<int>, c: int)
    requires IsPermutation(p, |b|)
    ensures Less(LastColumn(b, p), |b|, c) == Less(b, |b|, c)
  {
    var r := Preceding(|b|, p);
    assert Listed(b, r) == LastColumn(b, p);
    LessListed(b, r, c);
  }

  /** The row that comes k-th in first-column order: the inverse of the counting-sort slot. */
  ghost function Inverse(l: seq<int>, k: int): (i: nat)
    requires 0 <= k < |l|
    ensures i < |l| && SlotUp(l, i) == k
  {
    SomeInverse(l, k);
    var i: nat :| i < |l| && SlotUp(l, i) == k;
    i
  }

  lemma SomeInverse(l: seq<int>, k: int)
    requires 0 <= k < |l|
    ensures exists i: nat :: i < |l| && SlotUp(l, i) == k
  {
    var i := SlotUpHits(l, k);
  }

  lemma InverseOf(l: seq<int>, i: nat)
    requires i < |l|
    ensures 0 <= SlotUp(l, i) < |l| && Inverse(l, SlotUp(l, i)) == i
  {
    SlotsOwned(l, i);
    var j := Inverse(l, SlotUp(l, i));
    if i < j { SlotsDistinct(l, i, j); } else if j < i { SlotsDistinct(l, j, i); }
  }

  /** The row holding the rotation that starts one place after row k's. */
  ghost function Follower(b: seq<int>, p: seq<int>, k: int): (i: nat)
    requires IsPermutation(p, |b|) && 0 <= k < |b|
    ensures i < |b| && p[i] == Next(|b|, p[k])
  {
    SomeFollower(b, p, k);
    var i: nat :| i < |b| && p[i] == Next(|b|, p[k]);
    i
  }

  lemma SomeFollower(b: seq<int>, p: seq<int>, k: int)
    requires IsPermutation(p, |b|) && 0 <= k < |b|
    ensures exists i: nat :: i < |b| && p[i] == Next(|b|, p[k])
  {
    var i := PermutationHits(p, |b|, Next(|b|, p[k]));
  }

  /** Among rows with the same first byte, followers keep the order of the rows. */
  lemma FollowersInOrder(b: seq<int>, p: seq<int>, k: int, k': int)
    requires SortedRotations(b, p) && 0 <= k <= k' < |b| && b[p[k]] == b[p[k']]
    ensures CmpRotations(b, Next(|b|, p[k]), Next(|b|, p[k'])) <= 0
  {
    var n, x, y := |b|, p[k], p[k'];
    if k == k' {
      CmpSelf(b, Next(n, x), n);
    } else {
      assert CmpRotations(b, x, y) <= 0;
      if CmpRotations(b, x, y) == 0 {
        EqualRotationsStayEqual(b, x, y, n + 1);
      } else {
        CmpPrefix(b, x, y, n, n + 1);
      }
    }
  }

  /** In the last column: every follower of a row in byte c's slots is preceded by c. */
  lemma FollowerByte(b: seq<int>, p: seq<int>, k: int)
    requires IsPermutation(p, |b|) && 0 <= k < |b|
    ensures LastColumn(b, p)[Follower(b, p, k)] == b[p[k]]
  {
    PrevNext(|b|, p[k]);
  }

  /** Rows of the first column: which byte a row starts with. */
  lemma RowByte(b: seq<int>, p: seq<int>, k: int)
    requires SortedRotations(b, p) && 0 <= k < |b|
    ensures Less(b, |b|, b[p[k]]) <= k < Less(b, |b|, b[p[k]] + 1)
  {
    forall i, j | 0 <= i < j < |b| ensures b[p[i]] <= b[p[j]] {
      assert CmpRotations(b, p[i], p[j]) <= 0;
    }
    SortedSlots(b, p, k);
  }

  lemma RowsOfByte(b: seq<int>, p: seq<int>, k: int, k': int)
    requires SortedRotations(b, p) && 0 <= k < |b|
    requires Less(b, |b|, b[p[k]]) <= k' < Less(b, |b|, b[p[k]] + 1)
    ensures 0 <= k' < |b| && b[p[k']] == b[p[k]]
  {
    RowByte(b, p, k');
    SlotUnique(b, b[p[k']], b[p[k]], k');
  }

  /** The rows of the last column that hold c, below i, at i or above. */
  ghost function Holding(l: seq<int>, c: int, from: int, upto: int): (s: set<int>)
  {
    set x | 0 <= from <= x < upto <= |l| && l[x] == c
  }

  lemma HoldingSize(l: seq<int>, c: int, i: nat)
    requires i <= |l|
    ensures |Holding(l, c, 0, i)| == Count(l, i, c)
    ensures |Holding(l, c, i, |l|)| == Count(l, |l|, c) - Count(l, i, c)
  {
    CountIsSize(l, i, c);
    CountIsSize(l, |l|, c);
    assert Holding(l, c, 0, i) == set x | 0 <= x < i && l[x] == c;
    assert Holding(l, c, 0, |l|) == set x | 0 <= x < |l| && l[x] == c;
    assert Holding(l, c, 0, |l|) == Holding(l, c, 0, i) + Holding(l, c, i, |l|);
    assert Holding(l, c, 0, i) !! Holding(l, c, i, |l|);
  }

  /** The followers of rows from..to-1, as a set of that size. */
  ghost function Followers(b: seq<int>, p: seq<int>, from: int, upto: int): (s: set<int>)
    requires IsPermutation(p, |b|) && 0 <= from <= upto <= |b|
  {
    set k | from <= k < upto :: Follower(b, p, k) as int
  }

  lemma FollowersDistinct(b: seq<int>, p: seq<int>, j: int, k: int)
    requires IsPermutation(p, |b|) && 0 <= j < k < |b|
    ensures Follower(b, p, j) != Follower(b, p, k)
  {
    PrevNext(|b|, p[j]);
    PrevNext(|b|, p[k]);
  }

  lemma {:induction false} FollowersSize(b: seq<int>, p: seq<int>, from: int, upto: int)
    requires IsPermutation(p, |b|) && 0 <= from <= upto <= |b|
    ensures |Followers(b, p, from, upto)| == upto - from
    decreases upto
  {
    hide IsPermutation;
    var s := Followers(b, p, from, upto);
    if upto > from {
      FollowersSize(b, p, from, upto - 1);
      var t := Followers(b, p, from, upto - 1);
      var x := Follower(b, p, upto - 1) as int;
      forall k | from <= k < upto - 1 ensures Follower(b, p, k) != x {
        FollowersDistinct(b, p, k, upto - 1);
      }
      assert x !in t;
      assert s == t + {x};
    } else {
      assert s == {};
    }
  }

  /** A row whose rotation is strictly below row i's stands above it in the list. */
  lemma BelowIsEarlier(b: seq<int>, p: seq<int>, i: int, j: int)
    requires SortedRotations(b, p) && 0 <= i < |b| && 0 <= j < |b|
    ensures j < i || CmpRotations(b, p[j], p[i]) >= 0
  {
    hide CmpRotations;
    if i < j {
      AntisymmetricRows(b, p, i, j);
    } else if i == j {
      SelfRow(b, p, i);
    }
  }

  lemma AntisymmetricRows(b: seq<int>, p: seq<int>, i: int, j: int)
    requires SortedRotations(b, p) && 0 <= i < |b| && 0 <= j < |b|
    ensures CmpRotations(b, p[j], p[i]) == -CmpRotations(b, p[i], p[j])
  {
    CmpAntisymmetric(b, p[j], p[i], |b|);
  }

  lemma SelfRow(b: seq<int>, p: seq<int>, i: int)
    requires SortedRotations(b, p) && 0 <= i < |b|
    ensures CmpRotations(b, p[i], p[i]) == 0
  {
    CmpSelf(b, p[i], |b|);
  }

  /** The heart of the inversion: the row the inverse vector gives holds, up to equality of
      rotations, the rotation one place on. */
  lemma InverseFollows(b: seq<int>, p: seq<int>, k: int)
    requires SortedRotations(b, p) && 0 <= k < |b|
    ensures var i := Inverse(LastColumn(b, p), k);
      LastColumn(b, p)[i] == b[p[k]] && CmpRotations(b, Next(|b|, p[k]), p[i]) == 0
  {
    var n, l := |b|, LastColumn(b, p);
    var i := Inverse(l, k);
    InverseByte(b, p, k);
    NotBelow(b, p, k, i);
    NotAbove(b, p, k, i);
  }

  lemma InverseByte(b: seq<int>, p: seq<int>, k: int)
    requires SortedRotations(b, p) && 0 <= k < |b|
    ensures LastColumn(b, p)[Inverse(LastColumn(b, p), k)] == b[p[k]]
  {
    hide Less;
    hide Count;
    var l := LastColumn(b, p);
    var i := Inverse(l, k);
    SlotsOwned(l, i);
    LastColumnCounts(b, p, l[i]);
    LastColumnCounts(b, p, l[i] + 1);
    RowByte(b, p, k);
    SlotUnique(b, l[i], b[p[k]], k);
  }

  /** If row k's follower lies strictly below row i, so do the followers of the rows before k that
      start with the same byte. */
  lemma HeldBelow(b: seq<int>, p: seq<int>, k: int, i: int, k': int)
    requires SortedRotations(b, p) && 0 <= k < |b| && 0 <= i < |b|
    requires CmpRotations(b, Next(|b|, p[k]), p[i]) < 0
    requires Less(b, |b|, b[p[k]]) <= k' <= k
    ensures (Follower(b, p, k') as int) in Holding(LastColumn(b, p), b[p[k]], 0, i)
  {
    hide Cmp;
    RowByte(b, p, k);
    RowsOfByte(b, p, k, k');
    FollowerByte(b, p, k');
    FollowersInOrder(b, p, k', k);
    var x := Follower(b, p, k');
    CmpTransitive(b, p[x], Next(|b|, p[k]), p[i], |b|);
    BelowIsEarlier(b, p, i, x);
  }

  lemma HeldAbove(b: seq<int>, p: seq<int>, k: int, i: int, k': int)
    requires SortedRotations(b, p) && 0 <= k < |b| && 0 <= i < |b|
    requires CmpRotations(b, Next(|b|, p[k]), p[i]) > 0
    requires k <= k' < Less(b, |b|, b[p[k]] + 1)
    ensures (Follower(b, p, k') as int) in Holding(LastColumn(b, p), b[p[k]], i + 1, |b|)
  {
    hide Cmp;
    RowByte(b, p, k);
    RowsOfByte(b, p, k, k');
    FollowerByte(b, p, k');
    FollowersInOrder(b, p, k, k');
    var x := Follower(b, p, k');
    CmpAntisymmetric(b, Next(|b|, p[k]), p[i], |b|);
    CmpTransitive(b, p[i], Next(|b|, p[k]), p[x], |b|);
    BelowIsEarlier(b, p, x, i);
  }

  /** Were the follower strictly below row i, too many rows holding its byte would precede i. */
  lemma NotBelow(b: seq<int>, p: seq<int>, k: int, i: int)
    requires SortedRotations(b, p) && 0 <= k < |b| && i == Inverse(LastColumn(b, p), k)
    ensures CmpRotations(b, Next(|b|, p[k]), p[i]) >= 0
  {
    hide Less;
    hide Count;
    hide CmpRotations;
    var n, l, c := |b|, LastColumn(b, p), b[p[k]];
    InverseByte(b, p, k);
    LastColumnCounts(b, p, c);
    RowByte(b, p, k);
    if CmpRotations(b, Next(n, p[k]), p[i]) < 0 {
      var s, t := Followers(b, p, Less(b, n, c), k + 1), Holding(l, c, 0, i);
      forall k' | Less(b, n, c) <= k' < k + 1 ensures (Follower(b, p, k') as int) in t {
        HeldBelow(b, p, k, i, k');
      }
      FollowersSize(b, p, Less(b, n, c), k + 1);
      HoldingSize(l, c, i);
      SubsetSize(s, t);
    }
  }

  /** Were it strictly above, too many would come after. */
  lemma NotAbove(b: seq<int>, p: seq<int>, k: int, i: int)
    requires SortedRotations(b, p) && 0 <= k < |b| && i == Inverse(LastColumn(b, p), k)
    ensures CmpRotations(b, Next(|b|, p[k]), p[i]) <= 0
  {
    hide Less;
    hide CmpRotations;
    var n, l, c := |b|, LastColumn(b, p), b[p[k]];
    InverseByte(b, p, k);
    LastColumnCounts(b, p, c);
    LastColumnCounts(b, p, c + 1);
    LessStep(l, n, c);
    RowByte(b, p, k);
    var upto := Less(b, n, c + 1);
    if CmpRotations(b, Next(n, p[k]), p[i]) > 0 {
      var s, t := Followers(b, p, k, upto), Holding(l, c, i + 1, n);
      forall k' | k <= k' < upto ensures (Follower(b, p, k') as int) in t {
        HeldAbove(b, p, k, i, k');
      }
      FollowersSize(b, p, k, upto);
      HoldingSize(l, c, i + 1);
      SubsetSize(s, t);
    }
  }

  /* ---------- decoding ---------- */

  /** The row after k + 1 steps along the inverse vector from row `start`. */
  ghost function Row(l: seq<int>, start: int, k: nat): (i: nat)
    requires 0 <= start < |l|
    ensures i < |l|
  {
    if k == 0 then Inverse(l, start) else Inverse(l, Row(l, start, k - 1))
  }

  /** The k-th byte the decoder delivers. */
  ghost function Decoded(l: seq<int>, start: int, k: nat): int
    requires 0 <= start < |l|
  {
    l[Row(l, start, k)]
  }

  lemma {:induction false} RowRotation(b: seq<int>, p: seq<int>, start: int, k: nat)
    requires SortedRotations(b, p) && 0 <= start < |b| && p[start] == 0 && k < |b|
    ensures CmpRotations(b, Next(|b|, k), p[Row(LastColumn(b, p), start, k)]) == 0
    decreases k
  {
    hide Less;
    hide Count;
    hide CmpRotations;
    var n, l := |b|, LastColumn(b, p);
    if k == 0 {
      InverseFollows(b, p, start);
    } else {
      RowRotation(b, p, start, k - 1);
      var j := Row(l, start, k - 1);
      InverseFollows(b, p, j);
      EqualNext(b, k, p[j]);
      EqualTransitive(b, Next(n, k), Next(n, p[j]), p[Row(l, start, k)]);
    }
  }

  /** Equal rotations are preceded by the same byte. */
  lemma EqualPreceding(b: seq<int>, x: nat, y: nat)
    requires x < |b| && y < |b| && CmpRotations(b, x, y) == 0
    ensures b[Prev(|b|, x)] == b[Prev(|b|, y)]
  {
    var n := |b|;
    CmpSplit(b, x, y, n - 1, 1);
    CmpPrefix(b, x, y, n - 1, n);
    assert Advance(n, x, n - 1) == Prev(n, x) && Advance(n, y, n - 1) == Prev(n, y);
  }

  /** The round trip: from the last column and the row of the original block, the decoder
      delivers the block. */
  lemma RoundTrip(b: seq<int>, p: seq<int>, start: int, k: nat)
    requires SortedRotations(b, p) && 0 <= start < |b| && p[start] == 0 && k < |b|
    ensures Decoded(LastColumn(b, p), start, k) == b[k]
  {
    var l := LastColumn(b, p);
    RowRotation(b, p, start, k);
    EqualPreceding(b, Next(|b|, k), p[Row(l, start, k)]);
    PrevNext(|b|, k);
  }
}
