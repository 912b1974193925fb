/** Why merging the two lightest nodes is optimal: no lengths that satisfy Kraft's inequality cost
    less than the merges add up to. Nodes are indices; `live` marks those not yet merged. */
module MergeCost {
  import opened Bits

  /** Kraft's sum over the live nodes below k, in units of 2^-m. */
  ghost function Space(live: seq<bool>, l: seq<nat>, m: nat, k: nat): (s: nat)
    requires |live| == |l| && k <= |l| && forall i :: 0 <= i < |l| ==> l[i] <= m
  {
    if k == 0 then 0 else Space(live, l, m, k - 1) + (if live[k - 1] then Pow2(m - l[k - 1]) else 0)
  }

  /** Weighted length of the live nodes below k. */
  ghost function Cost(live: seq<bool>, w: seq<nat>, l: seq<nat>, k: nat): (s: nat)
    requires |live| == |l| == |w| && k <= |l|
  {
    if k == 0 then 0 else Cost(live, w, l, k - 1) + (if live[k - 1] then w[k - 1] * l[k - 1] else 0)
  }

  ghost predicate Bounded(l: seq<nat>, m: nat) {
    forall i :: 0 <= i < |l| ==> l[i] <= m
  }

  /** Lengths for the live nodes that some prefix code could have. */
  ghost predicate Feasible(live: seq<bool>, l: seq<nat>, m: nat) {
    |live| == |l| && Bounded(l, m) && Space(live, l, m, |l|) <= Pow2(m)
  }

  /** Every feasible choice of lengths costs at least c. */
  ghost predicate AtLeast(live: seq<bool>, w: seq<nat>, m: nat, c: nat)
    requires |live| == |w|
  {
    forall l: seq<nat> :: |l| == |w| && Feasible(live, l, m) ==> Cost(live, w, l, |w|) >= c
  }

  lemma {:induction false} SpaceUpdate(live: seq<bool>, l: seq<nat>, m: nat, k: nat, i: nat, v: nat)
    requires |live| == |l| && k <= |l| && Bounded(l, m) && i < |l| && v <= m && live[i]
    ensures Bounded(l[i := v], m)
    ensures Space(live, l[i := v], m, k) ==
            Space(live, l, m, k) + (if i < k then Pow2(m - v) - Pow2(m - l[i]) else 0)
    decreases k
  {
    if k > 0 { SpaceUpdate(live, l, m, k - 1, i, v); }
  }

  lemma {:induction false} CostUpdate(live: seq<bool>, w: seq<nat>, l: seq<nat>, k: nat, i: nat, v: nat)
    requires |live| == |l| == |w| && k <= |l| && i < |l| && live[i]
    ensures Cost(live, w, l[i := v], k) == Cost(live, w, l, k) + (if i < k then w[i] * v - w[i] * l[i] else 0)
    decreases k
  {
    if k > 0 { CostUpdate(live, w, l, k - 1, i, v); }
  }

  /** Two live nodes exchange lengths. */
  ghost function Exchanged(l: seq<nat>, i: nat, j: nat): (l': seq<nat>)
    requires i < |l| && j < |l|
  {
    l[i := l[j]][j := l[i]]
  }

  /** Giving the lighter node the longer length costs no more and takes the same space. */
  lemma ExchangeHelps(live: seq<bool>, w: seq<nat>, l: seq<nat>, m: nat, i: nat, j: nat)
    requires |l| == |w| && Feasible(live, l, m) && i < |l| && j < |l| && live[i] && live[j]
    requires w[i] <= w[j] && l[i] <= l[j]
    ensures Feasible(live, Exchanged(l, i, j), m)
    ensures Cost(live, w, Exchanged(l, i, j), |w|) <= Cost(live, w, l, |w|)
  {
    hide Space;
    hide Cost;
    var n := |l|;
    if i != j {
      var l1 := l[i := l[j]];
      SpaceUpdate(live, l, m, n, i, l[j]);
      SpaceUpdate(live, l1, m, n, j, l[i]);
      CostUpdate(live, w, l, n, i, l[j]);
      CostUpdate(live, w, l1, n, j, l[i]);
      CrossProduct(w[i], w[j], l[i], l[j]);
    } else {
      assert Exchanged(l, i, j) == l;
    }
  }

  lemma CrossProduct(a: nat, b: nat, x: nat, y: nat)
    requires a <= b && x <= y
    ensures a * y + b * x <= a * x + b * y
  {
    assert (b - a) * (y - x) >= 0;
  }

  /** A live node of greatest length. */
  lemma LongestLive(live: seq<bool>, l: seq<nat>, k: nat) returns (x: nat)
    requires |live| == |l| && k <= |l| && exists i :: 0 <= i < k && live[i]
    ensures x < k && live[x] && forall i :: 0 <= i < k && live[i] ==> l[i] <= l[x]
  {
    x := 0;
    var i, found := 0, false;
    while i < k
      invariant 0 <= i <= k && x < |l| && (found ==> x < i && live[x])
      invariant !found ==> forall j :: 0 <= j < i ==> !live[j]
      invariant found ==> forall j :: 0 <= j < i && live[j] ==> l[j] <= l[x]
    {
      if live[i] && (!found || l[i] > l[x]) {
        x, found := i, true;
      }
      i := i + 1;
    }
  }

  /** Apart from x, all live nodes are shorter than x: their space is even in units of x's. */
  lemma {:induction false} OthersEven(live: seq<bool>, l: seq<nat>, m: nat, k: nat, x: nat) returns (q: nat)
    requires |live| == |l| && k <= |l| && Bounded(l, m) && x < |l| && live[x] && l[x] >= 1
    requires forall i :: 0 <= i < |l| && live[i] && i != x ==> l[i] < l[x]
    ensures Space(live, l, m, k) == q * Pow2(m - l[x] + 1) + (if x < k then Pow2(m - l[x]) else 0)
    decreases k
  {
    var p := Pow2(m - l[x] + 1);
    if k == 0 {
      q := 0;
    } else {
      q := OthersEven(live, l, m, k - 1, x);
      if live[k - 1] && k - 1 != x {
        var e := l[x] - 1 - l[k - 1];
        Pow2Sum(e, m - l[x] + 1);
        AddMultiples(q, Pow2(e), p);
        q := q + Pow2(e);
      }
    }
  }

  lemma AddMultiples(q: nat, f: nat, p: nat)
    ensures (q + f) * p == q * p + f * p
  {
  }

  /** A single longest node can be shortened by one. */
  lemma ShortenLongest(live: seq<bool>, w: seq<nat>, l: seq<nat>, m: nat, x: nat)
    requires |l| == |w| && Feasible(live, l, m) && x < |l| && live[x] && l[x] >= 1
    requires forall i :: 0 <= i < |l| && live[i] && i != x ==> l[i] < l[x]
    ensures Feasible(live, l[x := l[x] - 1], m)
    ensures Cost(live, w, l[x := l[x] - 1], |w|) <= Cost(live, w, l, |w|)
  {
    hide Cost;
    var n := |l|;
    var q := OthersEven(live, l, m, n, x);
    hide Space;
    SpaceUpdate(live, l, m, n, x, l[x] - 1);
    CostUpdate(live, w, l, n, x, l[x] - 1);
    var p, h := Pow2(m - l[x] + 1), Pow2(m - l[x]);
    assert p == 2 * h;
    Pow2Sum(l[x] - 1, m - l[x] + 1);
    RoomForMore(q, Pow2(l[x] - 1), p, h);
    assert w[x] * (l[x] - 1) <= w[x] * l[x];
  }

  lemma RoomForMore(q: nat, t: nat, p: nat, h: nat)
    requires q * p + h <= t * p && p == 2 * h && h >= 1
    ensures q * p + 2 * h <= t * p
  {
    if q >= t {
      MulSplit(q, t, p);
      MulNonNegative(q - t, p);
    } else {
      MulSplit(t, q, p);
      MulAtLeast(t - q, p);
    }
  }

  lemma {:induction false} SpaceAtLeast(live: seq<bool>, l: seq<nat>, m: nat, k: nat, i: nat, j: nat)
    requires |live| == |l| && k <= |l| && Bounded(l, m) && i < j < |l| && live[i] && live[j]
    ensures Space(live, l, m, k) >= (if i < k then Pow2(m - l[i]) else 0) + (if j < k then Pow2(m - l[j]) else 0)
    decreases k
  {
    if k > 0 { SpaceAtLeast(live, l, m, k - 1, i, j); }
  }

  /* ---------- one merge ---------- */

  /** Nodes a and b replaced by one new node, their sum. */
  ghost predicate Merges(live': seq<bool>, w': seq<nat>, live: seq<bool>, w: seq<nat>, a: nat, b: nat) {
    |live| == |w| && a < |w| && b < |w| && a != b && live[a] && live[b] &&
    live' == live[a := false][b := false] + [true] && w' == w + [w[a] + w[b]]
  }

  /** a and b are the two lightest live nodes. */
  ghost predicate Lightest(live: seq<bool>, w: seq<nat>, a: nat, b: nat) {
    |live| == |w| && a < |w| && b < |w| &&
    forall i :: 0 <= i < |w| && live[i] ==> (i != a ==> w[a] <= w[i]) && (i != a && i != b ==> w[b] <= w[i])
  }

  lemma {:induction false} SpaceMerged(live: seq<bool>, l: seq<nat>, live': seq<bool>, l': seq<nat>, m: nat, k: nat,
      a: nat, b: nat)
    requires |live| == |l| && k <= |l| && Bounded(l, m) && a < |l| && b < |l| && a != b && live[a] && live[b]
    requires |live'| == |l'| && |l'| >= |l| && Bounded(l', m)
    requires forall i :: 0 <= i < |l| ==> l'[i] == l[i] && live'[i] == (live[i] && i != a && i != b)
    ensures Space(live', l', m, k) ==
            Space(live, l, m, k) - (if a < k then Pow2(m - l[a]) else 0) - (if b < k then Pow2(m - l[b]) else 0)
    decreases k
  {
    if k > 0 { SpaceMerged(live, l, live', l', m, k - 1, a, b); }
  }

  lemma {:induction false} CostMerged(live: seq<bool>, w: seq<nat>, l: seq<nat>, live': seq<bool>, w': seq<nat>,
      l': seq<nat>,
                                      k: nat, a: nat, b: nat)
    requires |live| == |l| == |w| && k <= |l| && a < |l| && b < |l| && a != b && live[a] && live[b]
    requires |live'| == |l'| == |w'| && |l'| >= |l|
    requires forall i :: 0 <= i < |l| ==> l'[i] == l[i] && w'[i] == w[i] && live'[i] == (live[i] && i != a && i != b)
    ensures Cost(live', w', l', k) ==
            Cost(live, w, l, k) - (if a < k then w[a] * l[a] else 0) - (if b < k then w[b] * l[b] else 0)
    decreases k
  {
    if k > 0 { CostMerged(live, w, l, live', w', l', k - 1, a, b); }
  }

  /** With both merged nodes at the same depth, their merger one higher is feasible, and cheaper by
      the weight of the merger. */
  lemma MergeSiblings(live: seq<bool>, w: seq<nat>, live': seq<bool>, w': seq<nat>, l: seq<nat>, m: nat, a: nat, b: nat)
    requires Merges(live', w', live, w, a, b) && |l| == |w| && Feasible(live, l, m)
    requires l[a] == l[b] >= 1
    ensures Feasible(live', l + [l[a] - 1], m)
    ensures Cost(live, w, l, |w|) == Cost(live', w', l + [l[a] - 1], |w'|) + w[a] + w[b]
  {
    var l' := l + [l[a] - 1];
    var n := |l|;
    assert Bounded(l', m);
    SpaceMerged(live, l, live', l', m, n, a, b);
    CostMerged(live, w, l, live', w', l', n, a, b);
    assert Pow2(m - (l[a] - 1)) == 2 * Pow2(m - l[a]);
    assert Space(live', l', m, n + 1) == Space(live', l', m, n) + Pow2(m - (l[a] - 1));
    assert Cost(live', w', l', n + 1) == Cost(live', w', l', n) + (w[a] + w[b]) * (l[a] - 1);
    SiblingCost(w[a], w[b], l[a]);
  }

  lemma SiblingCost(x: nat, y: nat, d: nat)
    requires d >= 1
    ensures x * d + y * d == (x + y) * (d - 1) + x + y
  {
  }

  ghost function Total(l: seq<nat>): (s: nat) {
    if l == [] then 0 else Total(l[..|l| - 1]) + l[|l| - 1]
  }

  lemma {:induction false} TotalUpdate(l: seq<nat>, i: nat, v: nat)
    requires i < |l|
    ensures Total(l[i := v]) == Total(l) - l[i] + v
    decreases |l|
  {
    var n := |l| - 1;
    if i == n {
      assert l[i := v][..n] == l[..n];
    } else {
      assert l[i := v][..n] == l[..n][i := v];
      TotalUpdate(l[..n], i, v);
    }
  }

  /** The exchange argument, for one choice of lengths. */
  lemma {:induction false} MergeBound(live: seq<bool>, w: seq<nat>, live': seq<bool>, w': seq<nat>, l: seq<nat>, m: nat,
      a: nat, b: nat, c: nat)
    requires Merges(live', w', live, w, a, b) && Lightest(live, w, a, b)
    requires |live'| == |w'| && AtLeast(live', w', m, c) && |l| == |w| && Feasible(live, l, m)
    ensures Cost(live, w, l, |w|) >= c + w[a] + w[b]
    decreases Total(l)
  {
    hide Cost;
    hide Space;
    var n := |l|;
    var x := LongestLive(live, l, n);
    TwoNeedDepth(live, l, m, a, b, x);
    if forall i :: 0 <= i < n && live[i] && i != x ==> l[i] < l[x] {
      ShortenLongest(live, w, l, m, x);
      TotalUpdate(l, x, l[x] - 1);
      MergeBound(live, w, live', w', l[x := l[x] - 1], m, a, b, c);
    } else {
      var y :| 0 <= y < n && live[y] && y != x && l[y] >= l[x];
      TwoLongest(live, w, live', w', l, m, a, b, c, x, y);
    }
  }

  /** Two live nodes cannot both have length 0. */
  lemma TwoNeedDepth(live: seq<bool>, l: seq<nat>, m: nat, a: nat, b: nat, x: nat)
    requires Feasible(live, l, m) && a < |l| && b < |l| && a != b && live[a] && live[b] && x < |l|
    requires forall i :: 0 <= i < |l| && live[i] ==> l[i] <= l[x]
    ensures l[x] >= 1
  {
    if l[a] == 0 && l[b] == 0 {
      if a < b { SpaceAtLeast(live, l, m, |l|, a, b); } else { SpaceAtLeast(live, l, m, |l|, b, a); }
    }
  }

  /** Two longest live nodes: move a and b to their depth. */
  lemma TwoLongest(live: seq<bool>, w: seq<nat>, live': seq<bool>, w': seq<nat>, l: seq<nat>, m: nat, a: nat, b: nat,
      c: nat,
                   x: nat, y: nat)
    requires Merges(live', w', live, w, a, b) && Lightest(live, w, a, b)
    requires |live'| == |w'| && AtLeast(live', w', m, c) && |l| == |w| && Feasible(live, l, m)
    requires x < |l| && y < |l| && x != y && live[x] && live[y] && l[x] == l[y] >= 1
    requires forall i :: 0 <= i < |l| && live[i] ==> l[i] <= l[x]
    ensures Cost(live, w, l, |w|) >= c + w[a] + w[b]
  {
    hide Cost;
    hide Space;
    ExchangeHelps(live, w, l, m, a, x);
    var l1 := Exchanged(l, a, x);
    var z := if y == a then x else y;
    ExchangeHelps(live, w, l1, m, b, z);
    var l2 := Exchanged(l1, b, z);
    MergeSiblings(live, w, live', w', l2, m, a, b);
    var l3 := l2 + [l2[a] - 1];
    assert |l3| == |w'| && Feasible(live', l3, m);
  }

  /** If every choice after the merge costs at least c, every choice before it costs at least c
      plus the weight of the merger. */
  lemma MergeAtLeast(live: seq<bool>, w: seq<nat>, live': seq<bool>, w': seq<nat>, m: nat, a: nat, b: nat, c: nat)
    requires Merges(live', w', live, w, a, b) && Lightest(live, w, a, b) && |live'| == |w'| && AtLeast(live', w', m, c)
    ensures AtLeast(live, w, m, c + w[a] + w[b])
  {
    forall l: seq<nat> | |l| == |w| && Feasible(live, l, m) ensures Cost(live, w, l, |w|) >= c + w[a] + w[b] {
      MergeBound(live, w, live', w', l, m, a, b, c);
    }
  }
}
