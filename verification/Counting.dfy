/** Counting keys, as every bucket table in both libraries does, and what the counts say about
    permutations that put keys in order. */
module Counting {
  import opened Rotations

  /** How many of the first i keys equal c. */
  function Count(s: seq<int>, i: nat, c: int): (n: nat)
    requires i <= |s|
    ensures n <= i
  {
    if i == 0 then 0 else Count(s, i - 1, c) + (if s[i - 1] == c then 1 else 0)
  }

  /** How many of the first i keys are less than c. */
  function Less(s: seq<int>, i: nat, c: int): (n: nat)
    requires i <= |s|
    ensures n <= i
  {
    if i == 0 then 0 else Less(s, i - 1, c) + (if s[i - 1] < c then 1 else 0)
  }

  /** Keys lie in 0..m-1. */
  ghost predicate Keys(s: seq<int>, m: int) {
    forall i :: 0 <= i < |s| ==> 0 <= s[i] < m
  }

  lemma {:induction false} LessStep(s: seq<int>, i: nat, c: int)
    requires i <= |s|
    ensures Less(s, i, c + 1) == Less(s, i, c) + Count(s, i, c)
    decreases i
  {
    if i > 0 { LessStep(s, i - 1, c); }
  }

  lemma {:induction false} LessMonotone(s: seq<int>, i: nat, c: int, d: int)
    requires i <= |s| && c <= d
    ensures Less(s, i, c) <= Less(s, i, d)
    decreases i
  {
    if i > 0 { LessMonotone(s, i - 1, c, d); }
  }

  lemma {:induction false} LessEnds(s: seq<int>, i: nat, m: int)
    requires i <= |s| && Keys(s, m)
    ensures Less(s, i, 0) == 0 && Less(s, i, m) == i
    decreases i
  {
    if i > 0 { LessEnds(s, i - 1, m); }
  }

  lemma {:induction false} CountMonotone(s: seq<int>, i: nat, j: nat, c: int)
    requires i <= j <= |s|
    ensures Count(s, i, c) <= Count(s, j, c)
    ensures Count(s, j, c) - Count(s, i, c) <= j - i
    decreases j
  {
    if i < j { CountMonotone(s, i, j - 1, c); }
  }

  /** A key that occurs is counted. */
  lemma CountPositive(s: seq<int>, i: nat)
    requires i < |s|
    ensures Count(s, i, s[i]) < Count(s, |s|, s[i])
  {
    CountMonotone(s, i + 1, |s|, s[i]);
  }

  /* ---------- permutations ---------- */

  /** The indices below n, of which there are n. */
  ghost function Indices(n: nat): (t: set<int>)
    ensures |t| == n && forall x :: x in t <==> 0 <= x < n
  {
    if n == 0 then {} else Indices(n - 1) + {n - 1}
  }

  lemma {:induction false} DistinctSize(p: seq<int>, k: nat)
    requires k <= |p| && forall i, j :: 0 <= i < j < |p| ==> p[i] != p[j]
    ensures |set i | 0 <= i < k :: p[i]| == k
    decreases k
  {
    var t := set i | 0 <= i < k :: p[i];
    if k > 0 {
      DistinctSize(p, k - 1);
      assert p[k - 1] !in (set i | 0 <= i < k - 1 :: p[i]);
      assert t == (set i | 0 <= i < k - 1 :: p[i]) + {p[k - 1]};
    } else {
      assert t == {};
    }
  }

  lemma SubsetSize<T>(a: set<T>, b: set<T>)
    requires a <= b
    ensures |a| <= |b| && (|a| == |b| ==> a == b)
  {
    assert b == a + (b - a);
    assert |b| == |a| + |b - a|;
  }

  /** Every index is listed somewhere. */
  lemma PermutationHits(p: seq<int>, n: nat, x: int) returns (i: nat)
    requires IsPermutation(p, n) && 0 <= x < n
    ensures i < n && p[i] == x
  {
    var t, r := set i | 0 <= i < n :: p[i], Indices(n);
    DistinctSize(p, n);
    SubsetSize(t, r);
    assert x in t;
    i :| 0 <= i < n && p[i] == x;
  }

  lemma {:induction false} LessIsSize(s: seq<int>, i: nat, c: int)
    requires i <= |s|
    ensures |set x | 0 <= x < i && s[x] < c| == Less(s, i, c)
    decreases i
  {
    var t := set x | 0 <= x < i && s[x] < c;
    if i > 0 {
      LessIsSize(s, i - 1, c);
      var u := set x | 0 <= x < i - 1 && s[x] < c;
      if s[i - 1] < c {
        assert t == u + {i - 1};
      } else {
        assert t == u;
      }
    } else {
      assert t == {};
    }
  }

  /** A permutation that lists the keys in order puts each key in its own slots. */
  lemma SortedSlots(s: seq<int>, p: seq<int>, i: nat)
    requires IsPermutation(p, |s|) && i < |s|
    requires forall j, k :: 0 <= j < k < |s| ==> s[p[j]] <= s[p[k]]
    ensures Less(s, |s|, s[p[i]]) <= i < Less(s, |s|, s[p[i]] + 1)
  {
    var n, c := |s|, s[p[i]];
    var below, upTo := set x | 0 <= x < n && s[x] < c, set x | 0 <= x < n && s[x] < c + 1;
    LessIsSize(s, n, c);
    LessIsSize(s, n, c + 1);
    var firstI, firstI1 := set k | 0 <= k < i :: p[k], set k | 0 <= k < i + 1 :: p[k];
    DistinctSize(p, i);
    DistinctSize(p, i + 1);
    forall x | x in below ensures x in firstI {
      var k := PermutationHits(p, n, x);
    }
    SubsetSize(below, firstI);
    forall x | x in firstI1 ensures x in upTo {
      var k :| 0 <= k < i + 1 && p[k] == x;
      assert k < i ==> s[p[k]] <= s[p[i]];
    }
    SubsetSize(firstI1, upTo);
  }

  /** Slots of different keys do not meet. */
  lemma SlotUnique(s: seq<int>, c: int, d: int, p: int)
    requires Less(s, |s|, c) <= p < Less(s, |s|, c + 1)
    requires Less(s, |s|, d) <= p < Less(s, |s|, d + 1)
    ensures c == d
  {
    if c < d {
      LessMonotone(s, |s|, c + 1, d);
    } else if d < c {
      LessMonotone(s, |s|, d + 1, c);
    }
  }

  /* ---------- counting sort ---------- */

  /** Where a forward counting sort puts entry i: after every lesser key and every earlier equal one. */
  ghost function SlotUp(s: seq<int>, i: nat): (k: int)
    requires i < |s|
  {
    Less(s, |s|, s[i]) + Count(s, i, s[i])
  }

  /** Where a sort filling each key's slots from the top puts it. */
  ghost function SlotDown(s: seq<int>, i: nat): (k: int)
    requires i < |s|
  {
    Less(s, |s|, s[i] + 1) - 1 - Count(s, i, s[i])
  }

  lemma SlotsOwned(s: seq<int>, i: nat)
    requires i < |s|
    ensures Less(s, |s|, s[i]) <= SlotUp(s, i) < Less(s, |s|, s[i] + 1)
    ensures Less(s, |s|, s[i]) <= SlotDown(s, i) < Less(s, |s|, s[i] + 1)
  {
    LessStep(s, |s|, s[i]);
    CountPositive(s, i);
  }

  lemma SlotsDistinct(s: seq<int>, i: nat, j: nat)
    requires i < j < |s|
    ensures SlotUp(s, i) != SlotUp(s, j) && SlotDown(s, i) != SlotDown(s, j)
    ensures s[i] == s[j] ==> SlotUp(s, i) < SlotUp(s, j)
  {
    SlotsOwned(s, i);
    SlotsOwned(s, j);
    if s[i] < s[j] {
      LessMonotone(s, |s|, s[i] + 1, s[j]);
    } else if s[j] < s[i] {
      LessMonotone(s, |s|, s[j] + 1, s[i]);
    } else {
      CountMonotone(s, i + 1, j, s[i]);
    }
  }

  /** Every slot is taken. */
  lemma SlotUpHits(s: seq<int>, k: int) returns (i: nat)
    requires 0 <= k < |s|
    ensures i < |s| && SlotUp(s, i) == k
  {
    var p := seq(|s|, j requires 0 <= j < |s| => SlotUp(s, j));
    SlotsPermute(s, p);
    i := PermutationHits(p, |s|, k);
  }

  lemma SlotDownHits(s: seq<int>, k: int) returns (i: nat)
    requires 0 <= k < |s|
    ensures i < |s| && SlotDown(s, i) == k
  {
    var p := seq(|s|, j requires 0 <= j < |s| => SlotDown(s, j));
    SlotsPermute(s, p);
    i := PermutationHits(p, |s|, k);
  }

  lemma SlotsPermute(s: seq<int>, p: seq<int>)
    requires |p| == |s|
    requires (forall j :: 0 <= j < |s| ==> p[j] == SlotUp(s, j)) ||
      (forall j :: 0 <= j < |s| ==> p[j] == SlotDown(s, j))
    ensures IsPermutation(p, |s|)
  {
    forall j | 0 <= j < |s| ensures 0 <= p[j] < |s| { SlotsOwned(s, j); }
    forall j, k | 0 <= j < k < |s| ensures p[j] != p[k] { SlotsDistinct(s, j, k); }
  }

  /* ---------- rearranged keys ---------- */

  /** s listed in the order p. */
  ghost function Listed(s: seq<int>, p: seq<int>): (r: seq<int>)
    requires IsPermutation(p, |s|)
    ensures |r| == |s| && forall i :: 0 <= i < |s| ==> r[i] == s[p[i]]
  {
    seq(|s|, i requires 0 <= i < |s| => s[p[i]])
  }

  /** The indices p[0..k) whose keys are less than c. */
  ghost function ListedLess(s: seq<int>, p: seq<int>, k: nat, c: int): (t: set<int>)
    requires IsPermutation(p, |s|) && k <= |s|
    ensures forall x :: x in t <==> exists i :: 0 <= i < k && p[i] == x && s[x] < c
  {
    if k == 0 then {} else ListedLess(s, p, k - 1, c) + (if s[p[k - 1]] < c then {p[k - 1]} else {})
  }

  lemma {:induction false} ListedLessSize(s: seq<int>, p: seq<int>, k: nat, c: int)
    requires IsPermutation(p, |s|) && k <= |s|
    ensures |ListedLess(s, p, k, c)| == Less(Listed(s, p), k, c)
    decreases k
  {
    if k > 0 {
      ListedLessSize(s, p, k - 1, c);
      assert p[k - 1] !in ListedLess(s, p, k - 1, c);
    }
  }

  /** Listing the keys in another order does not change how many are less than c. */
  lemma LessListed(s: seq<int>, p: seq<int>, c: int)
    requires IsPermutation(p, |s|)
    ensures Less(Listed(s, p), |s|, c) == Less(s, |s|, c)
  {
    var n := |s|;
    var listed, all := ListedLess(s, p, n, c), set x | 0 <= x < n && s[x] < c;
    ListedLessSize(s, p, n, c);
    LessIsSize(s, n, c);
    hide ListedLess;
    forall x | x in all ensures x in listed {
      var i := PermutationHits(p, n, x);
    }
    assert listed == all;
  }

  lemma {:induction false} CountIsSize(s: seq<int>, i: nat, c: int)
    requires i <= |s|
    ensures |set x | 0 <= x < i && s[x] == c| == Count(s, i, c)
    decreases i
  {
    var t := set x | 0 <= x < i && s[x] == c;
    if i > 0 {
      CountIsSize(s, i - 1, c);
      var u := set x | 0 <= x < i - 1 && s[x] == c;
      if s[i - 1] == c {
        assert t == u + {i - 1};
      } else {
        assert t == u;
      }
    } else {
      assert t == {};
    }
  }
}
