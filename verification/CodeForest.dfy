/** What BZ2_hbMakeCodeLengths builds: a forest over the symbols, two lightest trees joined at a
    time. Nodes are numbered from 1, the symbols first; node 0 is not a node. For every symbol the
    forest knows the root above it and how far up that root is. */
module CodeForest {
  import opened Bits
  import CanonicalCode
  import MergeCost

  datatype Forest = Forest(live: seq<bool>,     // is the node a root?
                           w: seq<nat>,         // weight of the node's tree
                           d: seq<nat>,         // height of the node's tree
                           top: seq<nat>,       // weight of the node's heavier child
                           root: seq<nat>,      // by symbol: the root above it
                           dep: seq<nat>,       // by symbol: steps up to that root
                           cost: nat)           // sum of the weights of all joined nodes

  /** Every symbol a tree of its own. */
  ghost function Start(v: seq<nat>): (f: Forest) {
    Forest([false] + seq(|v|, i => true), [0] + v, seq(|v| + 1, i => 0), seq(|v| + 1, i => 0),
           seq(|v|, i => i + 1), seq(|v|, i => 0), 0)
  }

  ghost function Max(a: nat, b: nat): (m: nat) {
    if a > b then a else b
  }

  /** Trees a and b under a new root. */
  ghost function Join(f: Forest, a: nat, b: nat): (g: Forest)
    requires Shape(f) && a < |f.live| && b < |f.live|
  {
    Forest(f.live[a := false][b := false] + [true], f.w + [f.w[a] + f.w[b]], f.d + [1 + Max(f.d[a], f.d[b])],
           f.top + [Max(f.w[a], f.w[b])],
           seq(|f.root|, i
           requires 0 <= i < |f.root| => if f.root[i] == a || f.root[i] == b then |f.live| else f.root[i]),
           seq(|f.dep|, i requires 0 <= i < |f.dep| => f.dep[i] + (if f.root[i] == a || f.root[i] == b then 1 else 0)),
           f.cost + f.w[a] + f.w[b])
  }

  ghost predicate Shape(f: Forest) {
    |f.live| == |f.w| == |f.d| == |f.top| > 0 && !f.live[0] && |f.root| == |f.dep|
  }

  /** Symbols hang under roots, no further down than the root's height. */
  ghost predicate Hung(f: Forest) {
    Shape(f) && forall i :: 0 <= i < |f.root| ==>
      1 <= f.root[i] < |f.live| && f.live[f.root[i]] && f.dep[i] <= f.d[f.root[i]]
  }

  lemma JoinHung(f: Forest, a: nat, b: nat)
    requires Hung(f) && a < |f.live| && b < |f.live| && a != 0 && b != 0
    ensures Hung(Join(f, a, b))
  {
  }

  lemma StartHung(v: seq<nat>)
    ensures Hung(Start(v))
  {
  }

  /* ---------- weights ---------- */

  /** Weight of the first k symbols that hang under r. */
  ghost function Load(f: Forest, v: seq<nat>, r: nat, k: nat): (s: nat)
    requires k <= |v| == |f.root|
  {
    if k == 0 then 0 else Load(f, v, r, k - 1) + (if f.root[k - 1] == r then v[k - 1] else 0)
  }

  /** A root weighs as much as the symbols under it. */
  ghost predicate Weighed(f: Forest, v: seq<nat>) {
    Shape(f) && |v| == |f.root| && forall r {:trigger f.live[r]} ::
    0 <= r < |f.live| && f.live[r] ==> f.w[r] == Load(f, v, r, |v|)
  }

  lemma {:induction false} JoinLoad(f: Forest, v: seq<nat>, a: nat, b: nat, r: nat, k: nat)
    requires Hung(f) && k <= |v| == |f.root| && a < |f.live| && b < |f.live| && a != b && r <= |f.live|
    ensures r == |f.live| ==> Load(Join(f, a, b), v, r, k) == Load(f, v, a, k) + Load(f, v, b, k)
    ensures r < |f.live| && r != a && r != b ==> Load(Join(f, a, b), v, r, k) == Load(f, v, r, k)
    decreases k
  {
    if k > 0 { JoinLoad(f, v, a, b, r, k - 1); }
  }

  lemma JoinWeighed(f: Forest, v: seq<nat>, a: nat, b: nat)
    requires Hung(f) && Weighed(f, v) && a < |f.live| && b < |f.live| && a != b && f.live[a] && f.live[b]
    ensures Weighed(Join(f, a, b), v)
  {
    var g := Join(f, a, b);
    forall r {:trigger g.live[r]} | 0 <= r < |g.live| && g.live[r] ensures g.w[r] == Load(g, v, r, |v|) {
      JoinLoad(f, v, a, b, r, |v|);
      assert f.live[a] && f.live[b];
      if r < |f.live| { assert f.live[r]; }
    }
  }

  lemma {:induction false} StartLoad(v: seq<nat>, r: nat, k: nat)
    requires k <= |v| && 1 <= r <= |v|
    ensures Load(Start(v), v, r, k) == if r <= k then v[r - 1] else 0
    decreases k
  {
    if k > 0 { StartLoad(v, r, k - 1); }
  }

  lemma StartWeighed(v: seq<nat>)
    ensures Weighed(Start(v), v)
  {
    forall r {:trigger Start(v).live[r]} | 0 <= r < |Start(v).live| && Start(v).live[r]
      ensures Start(v).w[r] == Load(Start(v), v, r, |v|)
    {
      StartLoad(v, r, |v|);
    }
  }

  ghost function Sum(v: seq<nat>, k: nat): (s: nat)
    requires k <= |v|
  {
    if k == 0 then 0 else Sum(v, k - 1) + v[k - 1]
  }

  lemma {:induction false} LoadBelowSum(f: Forest, v: seq<nat>, r: nat, k: nat)
    requires k <= |v| == |f.root|
    ensures Load(f, v, r, k) <= Sum(v, k)
    decreases k
  {
    if k > 0 { LoadBelowSum(f, v, r, k - 1); }
  }

  /** Two roots share no symbol. */
  lemma {:induction false} TwoLoadsBelowSum(f: Forest, v: seq<nat>, r: nat, q: nat, k: nat)
    requires k <= |v| == |f.root| && r != q
    ensures Load(f, v, r, k) + Load(f, v, q, k) <= Sum(v, k)
    decreases k
  {
    if k > 0 { TwoLoadsBelowSum(f, v, r, q, k - 1); }
  }

  /* ---------- cost ---------- */

  /** Weighted distance of the first k symbols from their roots. */
  ghost function Spent(v: seq<nat>, dep: seq<nat>, k: nat): (s: nat)
    requires k <= |v| == |dep|
  {
    if k == 0 then 0 else Spent(v, dep, k - 1) + v[k - 1] * dep[k - 1]
  }

  lemma {:induction false} JoinSpent(f: Forest, v: seq<nat>, a: nat, b: nat, k: nat)
    requires Hung(f) && k <= |v| == |f.root| && a < |f.live| && b < |f.live| && a != b
    ensures Spent(v, Join(f, a, b).dep, k) == Spent(v, f.dep, k) + Load(f, v, a, k) + Load(f, v, b, k)
    decreases k
  {
    if k > 0 {
      JoinSpent(f, v, a, b, k - 1);
      OneMore(v[k - 1], f.dep[k - 1]);
    }
  }

  lemma OneMore(x: nat, y: nat)
    ensures x * (y + 1) == x * y + x
  {
  }

  lemma {:induction false} StartSpent(v: seq<nat>, k: nat)
    requires k <= |v|
    ensures Spent(v, Start(v).dep, k) == 0
    decreases k
  {
    if k > 0 { StartSpent(v, k - 1); }
  }

  /* ---------- the code space ---------- */

  /** Code space, in units of 2^-m, of the first k symbols under r. */
  ghost function Share(f: Forest, r: nat, m: nat, k: nat): (s: nat)
    requires k <= |f.root| == |f.dep| && forall i :: 0 <= i < |f.dep| ==> f.dep[i] <= m
  {
    if k == 0 then 0 else Share(f, r, m, k - 1) + (if f.root[k - 1] == r then Pow2(m - f.dep[k - 1]) else 0)
  }

  /** The symbols under each root divide the whole code space. */
  ghost predicate Shared(f: Forest, m: nat) {
    Shape(f) && (forall i :: 0 <= i < |f.dep| ==> f.dep[i] <= m) &&
    forall r {:trigger f.live[r]} :: 0 <= r < |f.live| && f.live[r] ==> Share(f, r, m, |f.root|) == Pow2(m)
  }

  lemma {:induction false} JoinShare(f: Forest, a: nat, b: nat, r: nat, m: nat, k: nat)
    requires Hung(f) && a < |f.live| && b < |f.live| && a != b && r <= |f.live| && k <= |f.root|
    requires forall i :: 0 <= i < |f.dep| ==> f.dep[i] <= m
    requires forall i :: 0 <= i < |f.dep| ==> Join(f, a, b).dep[i] <= m
    ensures r == |f.live| ==> 2 * Share(Join(f, a, b), r, m, k) == Share(f, a, m, k) + Share(f, b, m, k)
    ensures r < |f.live| && r != a && r != b ==> Share(Join(f, a, b), r, m, k) == Share(f, r, m, k)
    decreases k
  {
    if k > 0 {
      JoinShare(f, a, b, r, m, k - 1);
      var g := Join(f, a, b);
      if f.root[k - 1] == a || f.root[k - 1] == b {
        assert g.dep[k - 1] == f.dep[k - 1] + 1;
        assert Pow2(m - f.dep[k - 1]) == 2 * Pow2(m - g.dep[k - 1]);
      }
    }
  }

  lemma JoinShared(f: Forest, a: nat, b: nat, m: nat)
    requires Hung(f) && Shared(f, m) && a < |f.live| && b < |f.live| && a != b && f.live[a] && f.live[b]
    requires f.d[a] < m && f.d[b] < m
    ensures Shared(Join(f, a, b), m)
  {
    var g := Join(f, a, b);
    forall i | 0 <= i < |g.dep| ensures g.dep[i] <= m {
      assert f.dep[i] <= f.d[f.root[i]];
    }
    forall r {:trigger g.live[r]} | 0 <= r < |g.live| && g.live[r] ensures Share(g, r, m, |g.root|) == Pow2(m) {
      JoinShare(f, a, b, r, m, |f.root|);
      assert f.live[a] && f.live[b];
      if r < |f.live| { assert f.live[r]; }
    }
  }

  lemma {:induction false} StartShare(v: seq<nat>, r: nat, m: nat, k: nat)
    requires k <= |v| && 1 <= r <= |v|
    ensures Share(Start(v), r, m, k) == if r <= k then Pow2(m) else 0
    decreases k
  {
    if k > 0 { StartShare(v, r, m, k - 1); }
  }

  lemma StartShared(v: seq<nat>, m: nat)
    ensures Shared(Start(v), m)
  {
    forall r {:trigger Start(v).live[r]} | 0 <= r < |Start(v).live| && Start(v).live[r]
      ensures Share(Start(v), r, m, |Start(v).root|) == Pow2(m)
    {
      StartShare(v, r, m, |v|);
    }
  }

  /* ---------- height ---------- */

  /** The least weight of a tree of height h: a Fibonacci number. */
  ghost function Least(h: nat): (w: nat)
    ensures w >= 1
  {
    if h == 0 then 1 else if h == 1 then 2 else Least(h - 1) + Least(h - 2)
  }

  lemma {:induction false} LeastMonotone(h: nat, k: nat)
    requires h <= k
    ensures Least(h) <= Least(k)
    decreases k
  {
    if h < k { LeastMonotone(h, k - 1); }
  }

  /** No root is lighter than a child of a root, and tall trees are heavy. */
  ghost predicate Tall(f: Forest) {
    Shape(f) &&
    (forall r, q {:trigger f.live[r], f.live[q]} ::
    0 <= r < |f.live| && 0 <= q < |f.live| && f.live[r] && f.live[q] ==> f.top[q] <= f.w[r]) &&
    (forall r {:trigger f.live[r]} :: 0 <= r < |f.live| && f.live[r] ==>
      f.w[r] >= Least(f.d[r]) && (f.d[r] >= 1 ==> f.top[r] >= Least(f.d[r] - 1)))
  }

  /** a is a lightest root and b a lightest of the others. */
  ghost predicate Lightest(f: Forest, a: nat, b: nat) {
    Shape(f) && a < |f.live| && b < |f.live| && a != b && f.live[a] && f.live[b] &&
    forall r {:trigger f.live[r]} :: 0 <= r < |f.live| && f.live[r] ==>
      (r != a ==> f.w[a] <= f.w[r]) && (r != a && r != b ==> f.w[b] <= f.w[r])
  }

  lemma JoinTall(f: Forest, a: nat, b: nat)
    requires Tall(f) && Lightest(f, a, b)
    ensures Tall(Join(f, a, b))
  {
    hide Least;
    var g := Join(f, a, b);
    var n := |f.live|;
    assert f.live[a] && f.live[b];
    forall r, q {:trigger g.live[r], g.live[q]} | 0 <= r < |g.live| && 0 <= q < |g.live| && g.live[r] && g.live[q]
      ensures g.top[q] <= g.w[r]
    {
      if r < n { assert f.live[r]; }
      if q < n { assert f.live[q]; }
    }
    assert g.w[n] >= Least(g.d[n]) by { JoinHeavy(f, a, b); }
    forall r {:trigger g.live[r]} | 0 <= r < |g.live| && g.live[r]
      ensures g.w[r] >= Least(g.d[r]) && (g.d[r] >= 1 ==> g.top[r] >= Least(g.d[r] - 1))
    {
      if r < n { assert f.live[r]; }
    }
  }

  /** The taller of two joined trees weighs enough for its height, and the other at least as much as
      a child of the taller one. */
  lemma JoinHeavy(f: Forest, a: nat, b: nat)
    requires Tall(f) && Lightest(f, a, b)
    ensures f.w[a] + f.w[b] >= Least(1 + Max(f.d[a], f.d[b]))
  {
    var x, y := if f.d[a] > f.d[b] then a else b, if f.d[a] > f.d[b] then b else a;
    assert f.live[x] && f.live[y];
    var h := f.d[x];
    if h >= 1 {
      assert Least(h + 1) == Least(h) + Least(h - 1);
      assert f.top[x] <= f.w[y];
    }
  }

  lemma StartTall(v: seq<nat>)
    requires forall i :: 0 <= i < |v| ==> v[i] >= 1
    ensures Tall(Start(v))
  {
    var f := Start(v);
    assert forall r :: 1 <= r < |f.live| ==> f.w[r] == v[r - 1];
  }

  /** A tree lighter than the least of height k is lower than k. */
  lemma HeightBelow(h: nat, k: nat, w: nat)
    requires Least(h) <= w < Least(k)
    ensures h < k
  {
    if h >= k { LeastMonotone(k, h); }
  }

  lemma Least13()
    ensures Least(13) == 610 && Least(12) == 377
  {
    assert Least(2) == 3;
    assert Least(3) == 5;
    assert Least(4) == 8;
    assert Least(5) == 13;
    assert Least(6) == 21;
    assert Least(7) == 34;
    assert Least(8) == 55;
    assert Least(9) == 89;
    assert Least(10) == 144;
    assert Least(11) == 233;
  }

  lemma Least33()
    ensures Least(33) == 9227465
  {
    Least13();
    assert Least(14) == 987;
    assert Least(15) == 1597;
    assert Least(16) == 2584;
    assert Least(17) == 4181;
    assert Least(18) == 6765;
    assert Least(19) == 10946;
    assert Least(20) == 17711;
    assert Least(21) == 28657;
    assert Least(22) == 46368;
    assert Least(23) == 75025;
    assert Least(24) == 121393;
    assert Least(25) == 196418;
    assert Least(26) == 317811;
    assert Least(27) == 514229;
    assert Least(28) == 832040;
    assert Least(29) == 1346269;
    assert Least(30) == 2178309;
    assert Least(31) == 3524578;
    assert Least(32) == 5702887;
  }

  /* ---------- optimality ---------- */

  /** Joining so far has not lost anything: whatever the roots must still cost at least, the symbols
      must cost that much and the joins' weights. */
  ghost predicate Thrifty(f: Forest, v: seq<nat>) {
    Shape(f) && forall m: nat, c: nat {:trigger MergeCost.AtLeast(f.live, f.w, m, c)} ::
      MergeCost.AtLeast(f.live, f.w, m, c) ==> MergeCost.AtLeast(Start(v).live, Start(v).w, m, c + f.cost)
  }

  lemma JoinThrifty(f: Forest, v: seq<nat>, a: nat, b: nat)
    requires Thrifty(f, v) && Lightest(f, a, b)
    ensures Thrifty(Join(f, a, b), v)
  {
    var g := Join(f, a, b);
    forall m: nat, c: nat {:trigger MergeCost.AtLeast(g.live, g.w, m, c)} | MergeCost.AtLeast(g.live, g.w, m, c)
      ensures MergeCost.AtLeast(Start(v).live, Start(v).w, m, c + g.cost)
    {
      hide MergeCost.AtLeast;
      MergeCost.MergeAtLeast(f.live, f.w, g.live, g.w, m, a, b, c);
      assert MergeCost.AtLeast(f.live, f.w, m, c + f.w[a] + f.w[b]);
    }
  }

  lemma {:induction false} StartSpace(v: seq<nat>, l: seq<nat>, m: nat, k: nat)
    requires |l| == |v| && k <= |l| && (forall i :: 0 <= i < |l| ==> 1 <= l[i] <= m)
    ensures MergeCost.Space(Start(v).live, [0] + l, m, k + 1) == CanonicalCode.Space(l, k, m, m)
    decreases k
  {
    if k > 0 { StartSpace(v, l, m, k - 1); }
  }

  lemma {:induction false} StartCost(v: seq<nat>, l: seq<nat>, k: nat)
    requires |l| == |v| && k <= |l|
    ensures MergeCost.Cost(Start(v).live, Start(v).w, [0] + l, k + 1) == Spent(v, l, k)
    decreases k
  {
    if k > 0 { StartCost(v, l, k - 1); }
  }

  /** No code whose lengths satisfy Kraft's inequality makes the symbols cheaper. */
  ghost predicate Cheapest(v: seq<nat>, lens: seq<nat>) {
    |lens| == |v| &&
    forall l: seq<nat>, m: nat {:trigger CanonicalCode.Kraft(l, m)} ::
      |l| == |v| && (forall i :: 0 <= i < |l| ==> l[i] >= 1) && CanonicalCode.Kraft(l, m) ==>
      Spent(v, lens, |v|) <= Spent(v, l, |v|)
  }

  /** Everything joining preserves. */
  ghost predicate Grown(f: Forest, v: seq<nat>, m: nat) {
    Hung(f) && Weighed(f, v) && Shared(f, m) && Tall(f) && Thrifty(f, v) && Spent(v, f.dep, |v|) == f.cost
  }

  lemma StartGrown(v: seq<nat>, m: nat)
    requires forall i :: 0 <= i < |v| ==> v[i] >= 1
    ensures Grown(Start(v), v, m)
  {
    hide MergeCost.AtLeast;
    StartHung(v);
    StartWeighed(v);
    StartShared(v, m);
    StartTall(v);
    StartSpent(v, |v|);
  }

  /** As long as all symbols together weigh less than the least tree of height m + 1, all trees stay
      at most m high. */
  lemma GrownLow(f: Forest, v: seq<nat>, m: nat, r: nat)
    requires Grown(f, v, m) && r < |f.live| && f.live[r]
    ensures f.w[r] <= Sum(v, |v|) && f.w[r] >= Least(f.d[r])
    ensures forall k: nat {:trigger Least(k)} :: Sum(v, |v|) < Least(k) ==> f.d[r] < k
  {
    LoadBelowSum(f, v, r, |v|);
    forall k: nat {:trigger Least(k)} | Sum(v, |v|) < Least(k) ensures f.d[r] < k {
      HeightBelow(f.d[r], k, f.w[r]);
    }
  }

  /** What is joined stays within the total weight and the height. */
  lemma JoinFits(f: Forest, v: seq<nat>, m: nat, a: nat, b: nat)
    requires Grown(f, v, m) && Lightest(f, a, b) && Sum(v, |v|) < Least(m + 1)
    ensures f.w[a] + f.w[b] <= Sum(v, |v|) && f.d[a] < m && f.d[b] < m
  {
    hide *;
    LightestRoots(f, a, b);
    GrownParts(f, v, m);
    WeighedRoot(f, v, a);
    WeighedRoot(f, v, b);
    TwoLoadsBelowSum(f, v, a, b, |v|);
    JoinHeavy(f, a, b);
    HeightBelow(1 + Max(f.d[a], f.d[b]), m + 1, f.w[a] + f.w[b]);
    MaxBound(f.d[a], f.d[b]);
  }

  lemma MaxBound(a: nat, b: nat)
    ensures a <= Max(a, b) && b <= Max(a, b)
  {
  }

  lemma LightestRoots(f: Forest, a: nat, b: nat)
    requires Lightest(f, a, b)
    ensures Shape(f) && a < |f.live| == |f.w| == |f.d| && b < |f.live| && a != b && f.live[a] && f.live[b] && a != 0 &&
      b != 0
  {
  }

  lemma GrownParts(f: Forest, v: seq<nat>, m: nat)
    requires Grown(f, v, m)
    ensures Hung(f) && Weighed(f, v) && Shared(f, m) && Tall(f) && Thrifty(f, v) && Shape(f) &&
      |v| == |f.root| == |f.dep|
    ensures Spent(v, f.dep, |v|) == f.cost
  {
  }

  lemma JoinGrown(f: Forest, v: seq<nat>, m: nat, a: nat, b: nat)
    requires Grown(f, v, m) && Lightest(f, a, b) && Sum(v, |v|) < Least(m + 1)
    ensures Grown(Join(f, a, b), v, m)
  {
    JoinFits(f, v, m, a, b);
    hide *;
    LightestRoots(f, a, b);
    GrownParts(f, v, m);
    JoinHung(f, a, b);
    JoinWeighed(f, v, a, b);
    JoinTall(f, a, b);
    JoinThrifty(f, v, a, b);
    JoinShared(f, a, b, m);
    JoinSpent(f, v, a, b, |v|);
    WeighedRoot(f, v, a);
    WeighedRoot(f, v, b);
    JoinCost(f, a, b);
    GrownIntro(Join(f, a, b), v, m);
  }

  lemma JoinCost(f: Forest, a: nat, b: nat)
    requires Shape(f) && a < |f.live| && b < |f.live|
    ensures Join(f, a, b).cost == f.cost + f.w[a] + f.w[b] && |Join(f, a, b).dep| == |f.dep|
    ensures Join(f, a, b).live == f.live[a := false][b := false] + [true]
  {
  }

  lemma GrownIntro(f: Forest, v: seq<nat>, m: nat)
    requires Hung(f) && Weighed(f, v) && Shared(f, m) && Tall(f) && Thrifty(f, v) && |v| == |f.dep| &&
      Spent(v, f.dep, |v|) == f.cost
    ensures Grown(f, v, m)
  {
  }

  lemma WeighedRoot(f: Forest, v: seq<nat>, r: nat)
    requires Weighed(f, v) && r < |f.live| && f.live[r]
    ensures f.w[r] == Load(f, v, r, |v|)
  {
  }

  /** Only r is a root. */
  ghost predicate Single(f: Forest, r: nat) {
    r < |f.live| && f.live[r] && forall q :: 0 <= q < |f.live| && f.live[q] ==> q == r
  }

  lemma {:induction false} SingleShare(f: Forest, r: nat, m: nat, k: nat)
    requires k <= |f.root| == |f.dep| && (forall i :: 0 <= i < |f.dep| ==> 1 <= f.dep[i] <= m && f.root[i] == r)
    ensures Share(f, r, m, k) == CanonicalCode.Space(f.dep, k, m, m)
    decreases k
  {
    if k > 0 { SingleShare(f, r, m, k - 1); }
  }

  lemma {:induction false} ShareAtLeast(f: Forest, r: nat, m: nat, k: nat, i: nat, j: nat)
    requires k <= |f.root| == |f.dep| && (forall i :: 0 <= i < |f.dep| ==> f.dep[i] <= m && f.root[i] == r) &&
      i < j < |f.dep|
    ensures Share(f, r, m, k) >= (if i < k then Pow2(m - f.dep[i]) else 0) + (if j < k then Pow2(m - f.dep[j]) else 0)
    decreases k
  {
    if k > 0 { ShareAtLeast(f, r, m, k - 1, i, j); }
  }

  /** With more than one symbol no length is 0. */
  lemma SinglePositive(f: Forest, v: seq<nat>, m: nat, r: nat)
    requires Grown(f, v, m) && Single(f, r) && |v| >= 2
    ensures forall i :: 0 <= i < |f.dep| ==> 1 <= f.dep[i] <= m && f.root[i] == r
  {
    forall i | 0 <= i < |f.dep| ensures 1 <= f.dep[i] <= m && f.root[i] == r {
      var j := if i == 0 then 1 else 0;
      if i < j { ShareAtLeast(f, r, m, |v|, i, j); } else { ShareAtLeast(f, r, m, |v|, j, i); }
      assert Share(f, r, m, |v|) == Pow2(m);
    }
  }

  /** The finished tree: a complete code, and no other is cheaper. */
  lemma SingleOptimal(f: Forest, v: seq<nat>, m: nat, r: nat)
    requires Grown(f, v, m) && Single(f, r) && |v| >= 2
    ensures forall i :: 0 <= i < |f.dep| ==> 1 <= f.dep[i] <= m
    ensures CanonicalCode.Space(f.dep, |v|, m, m) == Pow2(m)
    ensures Cheapest(v, f.dep)
  {
    SinglePositive(f, v, m, r);
    SingleShare(f, r, m, |v|);
    forall l: seq<nat>, k: nat {:trigger CanonicalCode.Kraft(l, k)}
      | |l| == |v| && (forall i :: 0 <= i < |l| ==> l[i] >= 1) && CanonicalCode.Kraft(l, k)
      ensures Spent(v, f.dep, |v|) <= Spent(v, l, |v|)
    {
      NoneCheaper(f, v, l, k);
    }
  }

  lemma NoneCheaper(f: Forest, v: seq<nat>, l: seq<nat>, k: nat)
    requires Thrifty(f, v)
    requires |l| == |v| && (forall i :: 0 <= i < |l| ==> l[i] >= 1) && CanonicalCode.Kraft(l, k)
    ensures f.cost <= Spent(v, l, |v|)
  {
    assert MergeCost.AtLeast(f.live, f.w, k, 0);
    assert MergeCost.AtLeast(Start(v).live, Start(v).w, k, 0 + f.cost);
    hide Thrifty;
    AtLeastSpent(v, l, k, f.cost);
  }

  /** Lengths for the symbols are feasible lengths for the trees of one symbol each. */
  lemma AtLeastSpent(v: seq<nat>, l: seq<nat>, k: nat, c: nat)
    requires MergeCost.AtLeast(Start(v).live, Start(v).w, k, c)
    requires |l| == |v| && (forall i :: 0 <= i < |l| ==> l[i] >= 1) && CanonicalCode.Kraft(l, k)
    ensures c <= Spent(v, l, |v|)
  {
    StartSpace(v, l, k, |l|);
    StartCost(v, l, |l|);
    hide MergeCost.Space;
    hide MergeCost.Cost;
    hide CanonicalCode.Space;
    var l0: seq<nat> := [0] + l;
    assert MergeCost.Feasible(Start(v).live, l0, k);
  }
}
