/** huffman.c, BZ2_hbMakeCodeLengths: lengths for a prefix code from symbol frequencies, none longer
    than maxLen. */
module CodeLengths {
  import opened CodeForest
  import opened CodeHeap
  import CanonicalCode

  const MAX_ALPHA_SIZE := 258
  const TALLEST := 32

  /** Frequencies as leaf weights: an unused symbol counts as used once. */
  ghost function Weights(freq: seq<int>): (v: seq<nat>)
    ensures |v| == |freq|
  {
    seq(|freq|, i requires 0 <= i < |freq| => if freq[i] <= 0 then 1 else freq[i])
  }

  /** Weights scaled down for another attempt. */
  ghost function Halved(v: seq<nat>): (r: seq<nat>)
    ensures |r| == |v|
  {
    seq(|v|, i requires 0 <= i < |v| => 1 + v[i] / 2)
  }

  ghost function Rounds(v: seq<nat>, t: nat): (r: seq<nat>)
    ensures |r| == |v|
  {
    if t == 0 then v else Halved(Rounds(v, t - 1))
  }

  ghost predicate Positive(v: seq<nat>) {
    forall i :: 0 <= i < |v| ==> v[i] >= 1
  }

  /** Scaling never makes weights heavier, and stops making them lighter only when all are 1 or 2. */
  lemma {:induction false} HalvedSum(v: seq<nat>, k: nat)
    requires k <= |v| && Positive(v)
    ensures Sum(Halved(v), k) <= Sum(v, k)
    ensures Sum(Halved(v), k) == Sum(v, k) ==> forall i :: 0 <= i < k ==> v[i] <= 2
    decreases k
  {
    if k > 0 { HalvedSum(v, k - 1); }
  }

  lemma {:induction false} SmallSum(v: seq<nat>, k: nat)
    requires k <= |v| && forall i :: 0 <= i < k ==> v[i] <= 2
    ensures Sum(v, k) <= 2 * k
    decreases k
  {
    if k > 0 { SmallSum(v, k - 1); }
  }

  /* ---------- the arrays ---------- */

  /** Going up from node k, d steps lead to the root r. */
  ghost predicate Climbs(parent: seq<int>, n: int, k: int, r: int, d: nat)
    decreases d
  {
    0 <= k <= n < |parent| &&
    if d == 0 then k == r && parent[k] < 0 else parent[k] >= 0 && Climbs(parent, n, parent[k], r, d - 1)
  }

  lemma {:induction false} ClimbsStill(p: seq<int>, p': seq<int>, n: int, k: int, r: int, d: nat, a: int, b: int)
    requires Climbs(p, n, k, r, d) && 0 <= a <= n && 0 <= b <= n && |p'| == |p| && n + 1 < |p|
    requires p[a] < 0 && p[b] < 0 && p' == p[a := n + 1][b := n + 1][n + 1 := -1]
    ensures r == a || r == b ==> Climbs(p', n + 1, k, n + 1, d + 1)
    ensures r != a && r != b ==> Climbs(p', n + 1, k, r, d)
    decreases d
  {
    if d > 0 {
      ClimbsStill(p, p', n, p[k], r, d - 1, a, b);
    } else if r == a || r == b {
      assert Climbs(p', n + 1, n + 1, n + 1, 0);
    }
  }

  /** Node weights are kept times 256, with the height in the low byte; parent is negative for roots. */
  ghost predicate Mirrors(f: Forest, weight: seq<int>, parent: seq<int>, n: nat) {
    Shape(f) && n + 1 == |f.live| <= |weight| && n < |parent| && weight[0] == 0 &&
    (forall i {:trigger weight[i]} ::
    1 <= i <= n ==> weight[i] == 256 * f.w[i] + f.d[i] && f.d[i] <= TALLEST && f.w[i] >= 1) &&
    (forall i {:trigger parent[i]} :: 1 <= i <= n ==> f.live[i] ==> parent[i] == -1) &&
    (forall i :: 0 <= i < |f.root| ==> Climbs(parent, n, i + 1, f.root[i], f.dep[i]))
  }

  function WeightOf(z: nat): (r: nat) { z - z % 256 }
  function DepthOf(z: nat): (r: nat) { z % 256 }

  /** ADDWEIGHTS; the sum of the weights has a zero low byte, so that "or" adds the height. */
  function AddWeights(z1: nat, z2: nat): (r: nat) {
    WeightOf(z1) + WeightOf(z2) + (1 + (if DepthOf(z1) > DepthOf(z2) then DepthOf(z1) else DepthOf(z2)))
  }

  lemma AddPacked(w1: nat, d1: nat, w2: nat, d2: nat)
    requires d1 < 256 && d2 < 256
    ensures AddWeights(256 * w1 + d1, 256 * w2 + d2) == 256 * (w1 + w2) + 1 + Max(d1, d2)
  {
    assert (256 * w1 + d1) % 256 == d1;
    assert (256 * w2 + d2) % 256 == d2;
  }

  lemma StartMirrors(v: seq<nat>, weight: seq<int>, parent: seq<int>)
    requires |v| < |weight| && |v| < |parent| && Positive(v) && weight[0] == 0
    requires Loaded(weight, v) && Rooted(parent, |v|)
    ensures Mirrors(Start(v), weight, parent, |v|)
  {
    var f := Start(v);
    assert forall i :: 0 <= i < |f.root| ==> Climbs(parent, |v|, i + 1, f.root[i], 0);
  }

  lemma MirrorsAt(f: Forest, weight: seq<int>, parent: seq<int>, n: nat, i: nat)
    requires Mirrors(f, weight, parent, n) && 1 <= i <= n
    ensures Shape(f) && n + 1 == |f.live| && i < |weight| && i < |parent| && weight[0] == 0
    ensures weight[i] == 256 * f.w[i] + f.d[i] && f.d[i] <= TALLEST && weight[i] > 0
    ensures f.live[i] ==> parent[i] == -1
  {
    assert weight[i] == 256 * f.w[i] + f.d[i];
  }

  lemma JoinClimbs(f: Forest, weight: seq<int>, parent: seq<int>, n: nat, a: nat, b: nat)
    requires Mirrors(f, weight, parent, n) && Lightest(f, a, b) && n + 1 < |parent|
    ensures forall i :: 0 <= i < |f.root| ==>
      Climbs(parent[a := n + 1][b := n + 1][n + 1 := -1], n + 1, i + 1, Join(f, a, b).root[i], Join(f, a, b).dep[i])
  {
    MirrorsAt(f, weight, parent, n, a);
    MirrorsAt(f, weight, parent, n, b);
    var parent' := parent[a := n + 1][b := n + 1][n + 1 := -1];
    forall i | 0 <= i < |f.root| ensures Climbs(parent', n + 1, i + 1, Join(f, a, b).root[i], Join(f, a, b).dep[i]) {
      ClimbsStill(parent, parent', n, i + 1, f.root[i], f.dep[i], a, b);
    }
  }

  lemma JoinMirrors(f: Forest, weight: seq<int>, parent: seq<int>, n: nat, a: nat, b: nat)
    requires Mirrors(f, weight, parent, n) && Lightest(f, a, b) && n + 1 < |weight| && n + 1 < |parent|
    requires f.d[a] < TALLEST && f.d[b] < TALLEST && weight[a] >= 0 && weight[b] >= 0
    ensures Mirrors(Join(f, a, b), weight[n + 1 := AddWeights(weight[a], weight[b])],
      parent[a := n + 1][b := n + 1][n + 1 := -1], n + 1)
  {
    JoinClimbs(f, weight, parent, n, a, b);
    hide Climbs;
    hide AddWeights;
    var g := Join(f, a, b);
    var weight' := weight[n + 1 := AddWeights(weight[a], weight[b])];
    var parent' := parent[a := n + 1][b := n + 1][n + 1 := -1];
    LightestRoots(f, a, b);
    MirrorsAt(f, weight, parent, n, a);
    MirrorsAt(f, weight, parent, n, b);
    AddPacked(f.w[a], f.d[a], f.w[b], f.d[b]);
    forall i {:trigger weight'[i]} | 1 <= i <= n + 1
      ensures weight'[i] == 256 * g.w[i] + g.d[i] && g.d[i] <= TALLEST && g.w[i] >= 1 {
      if i <= n { assert weight[i] == 256 * f.w[i] + f.d[i]; }
    }
    forall i {:trigger parent'[i]} | 1 <= i <= n + 1 && g.live[i] ensures parent'[i] == -1 {
      if i <= n { MirrorsAt(f, weight, parent, n, i); }
    }
    assert Shape(g) && n + 2 == |g.live| && |g.root| == |f.root| && weight'[0] == 0;
  }

  /* ---------- one tree ---------- */

  /** The weights of the symbols, in their packed form. */
  ghost predicate Loaded(weight: seq<int>, v: seq<nat>) {
    |v| < |weight| && forall i {:trigger weight[i]} :: 1 <= i <= |v| ==> weight[i] == 256 * v[i - 1]
  }

  /** Inputs for which the packed weights stay below 2^31. */
  ghost predicate Small(v: seq<nat>) {
    2 <= |v| <= MAX_ALPHA_SIZE && Positive(v) && Sum(v, |v|) < 0x80_0000
  }

  lemma SmallLow(v: seq<nat>)
    requires Small(v)
    ensures Sum(v, |v|) < Least(TALLEST + 1)
  {
    Least33();
  }

  lemma LoadedKeeps(weight: seq<int>, v: seq<nat>, i: nat)
    requires Loaded(weight, v) && Positive(v) && 1 <= i <= |v|
    ensures i < |weight| && weight[i] > 0 && Loaded(weight[0 := 0], v)
  {
  }

  /** Nodes 1..k are roots. */
  ghost predicate Rooted(parent: seq<int>, k: int) {
    k < |parent| && forall i {:trigger parent[i]} :: 1 <= i <= k ==> parent[i] == -1
  }

  lemma RootedStep(parent: seq<int>, k: int)
    requires 0 <= k && k + 1 < |parent| && (k == 0 || Rooted(parent, k))
    ensures Rooted(parent[k + 1 := -1], k + 1)
  {
  }

  /** The first k symbols are roots. */
  ghost function Leaves(k: nat): (live: seq<bool>)
    ensures |live| == k + 1
  {
    [false] + seq(k, j => true)
  }

  lemma LeavesStart(v: seq<nat>)
    ensures Leaves(0) == [false] && Leaves(|v|) == Start(v).live
  {
  }

  lemma LeavesStep(k: nat)
    ensures Leaves(k) + [true] == Leaves(k + 1)
  {
  }

  /** The heap of all symbols. */
  method Plant(heap: array<int>, weight: array<int>, parent: array<int>, alphaSize: nat, ghost v: seq<nat>)
    requires heap != weight && heap != parent && weight != parent && |v| == alphaSize && Small(v)
    requires heap.Length == MAX_ALPHA_SIZE + 2 && weight.Length == parent.Length == 2 * MAX_ALPHA_SIZE
    requires Loaded(weight[..], v) && weight[0] == 0
    modifies heap, parent
    ensures RootHeap(heap[..], weight[..], alphaSize, Start(v).live)
    ensures Mirrors(Start(v), weight[..], parent[..], alphaSize)
  {
    hide *;
    SmallSize(v);
    ghost var w := weight[..];
    heap[0] := 0;
    parent[0] := -2;
    var nHeap, i := 0, 1;
    EmptyHeap(heap[..], w);
    LeavesStart(v);
    while i <= alphaSize
      invariant 1 <= i <= alphaSize + 1 && nHeap == i - 1 && weight[..] == w
      invariant RootHeap(heap[..], w, nHeap, Leaves(i - 1))
      invariant i > 1 ==> Rooted(parent[..], i - 1)
    {
      RootedStep(parent[..], i - 1);
      parent[i] := -1;
      ghost var p := parent[..];
      LoadedKeeps(w, v, i);
      PushRoot(heap, weight, nHeap, i, Leaves(i - 1));
      LeavesStep(i - 1);
      assert parent[..] == p;
      nHeap := nHeap + 1;
      i := i + 1;
    }
    StartMirrors(v, w, parent[..]);
  }

  lemma PackedOrder(w1: nat, d1: nat, w2: nat, d2: nat)
    requires 256 * w1 + d1 <= 256 * w2 + d2 && d1 < 256 && d2 < 256
    ensures w1 <= w2
  {
  }

  /** What two pops give are two lightest roots. */
  lemma PoppedLightest(f: Forest, weight: seq<int>, parent: seq<int>, n: nat, n1: nat, n2: nat)
    requires Mirrors(f, weight, parent, n)
    requires LightestRoot(weight, f.live, n1) && LightestRoot(weight, f.live[n1 := false], n2)
    ensures 1 <= n1 <= n && 1 <= n2 <= n && Lightest(f, n1, n2)
  {
    hide Climbs;
    forall r {:trigger f.live[r]} | 0 <= r < |f.live| && f.live[r]
      ensures (r != n1 ==> f.w[n1] <= f.w[r]) && (r != n1 && r != n2 ==> f.w[n2] <= f.w[r])
    {
      MirrorsAt(f, weight, parent, n, r);
      MirrorsAt(f, weight, parent, n, n1);
      MirrorsAt(f, weight, parent, n, n2);
      PackedOrder(f.w[n1], f.d[n1], f.w[r], f.d[r]);
      if r != n1 {
        PackedOrder(f.w[n2], f.d[n2], f.w[r], f.d[r]);
      }
    }
  }

  /** Two pops. */
  method PopTwo(heap: array<int>, weight: array<int>, nHeap: nat, ghost parent: seq<int>, ghost n: nat, ghost f: Forest)
      returns (n1: nat, n2: nat)
    requires heap != weight && nHeap >= 2 && Mirrors(f, weight[..], parent, n)
    requires RootHeap(heap[..], weight[..], nHeap, f.live)
    modifies heap
    ensures 1 <= n1 <= n && 1 <= n2 <= n && n + 1 == |f.live| && Lightest(f, n1, n2)
    ensures RootHeap(heap[..], weight[..], nHeap - 2, f.live[n1 := false][n2 := false])
  {
    hide *;
    MirrorsShape(f, weight[..], parent, n);
    n1 := PopRoot(heap, weight, nHeap, f.live);
    n2 := PopRoot(heap, weight, nHeap - 1, f.live[n1 := false]);
    PoppedLightest(f, weight[..], parent, n, n1, n2);
  }

  /** The new node's weight and the parent links. */
  lemma JoinWritten(f: Forest, v: seq<nat>, w: seq<int>, p: seq<int>, n: nat, a: nat, b: nat)
    requires Mirrors(f, w, p, n) && Grown(f, v, TALLEST) && Small(v) && Lightest(f, a, b)
    requires n + 1 < |w| && n + 1 < |p| && a < |w| && b < |w|
    ensures w[a] >= 0 && w[b] >= 0 && a < |p| && b < |p| && Shape(f) && a < |f.live| == n + 1 && b < |f.live|
    ensures var w' := w[n + 1 := AddWeights(w[a], w[b])];
      w'[0] < w'[n + 1] && Mirrors(Join(f, a, b), w', p[a := n + 1][b := n + 1][n + 1 := -1], n + 1)
    ensures Grown(Join(f, a, b), v, TALLEST)
    ensures Join(f, a, b).live == f.live[a := false][b := false] + [true]
  {
    hide *;
    SmallLow(v);
    MirrorsShape(f, w, p, n);
    LightestRoots(f, a, b);
    MirrorsAt(f, w, p, n, a);
    MirrorsAt(f, w, p, n, b);
    JoinCost(f, a, b);
    JoinFits(f, v, TALLEST, a, b);
    JoinGrown(f, v, TALLEST, a, b);
    JoinMirrors(f, w, p, n, a, b);
    MirrorsAt(Join(f, a, b), w[n + 1 := AddWeights(w[a], w[b])], p[a := n + 1][b := n + 1][n + 1 := -1], n + 1, n + 1);
  }

  /** The joined node enters the arrays and the heap. */
  method AddNode(heap: array<int>, weight: array<int>, parent: array<int>, nHeap: nat, nNodes: nat, n1: nat, n2: nat,
      ghost rest: seq<bool>)
    requires heap != weight && heap != parent && weight != parent && nHeap + 1 < heap.Length
    requires 1 <= n1 < nNodes < weight.Length == parent.Length && 1 <= n2 < nNodes
    requires |rest| == nNodes && RootHeap(heap[..], weight[..], nHeap, rest)
    requires weight[n1] >= 0 && weight[n2] >= 0 && weight[0] < AddWeights(weight[n1], weight[n2])
    modifies heap, weight, parent
    ensures weight[..] == old(weight[..])[nNodes := AddWeights(old(weight[n1]), old(weight[n2]))]
    ensures parent[..] == old(parent[..])[n1 := nNodes][n2 := nNodes][nNodes := -1]
    ensures RootHeap(heap[..], weight[..], nHeap + 1, rest + [true])
  {
    hide *;
    HeapFrame(heap[..], weight[..], nHeap, rest, AddWeights(weight[n1], weight[n2]));
    parent[n1], parent[n2] := nNodes, nNodes;
    weight[nNodes] := AddWeights(weight[n1], weight[n2]);
    parent[nNodes] := -1;
    ghost var w, p := weight[..], parent[..];
    PushRoot(heap, weight, nHeap, nNodes, rest);
    assert weight[..] == w && parent[..] == p;
  }

  /** Between two rounds of the joining loop. */
  ghost predicate Joining(f: Forest, v: seq<nat>, h: seq<int>, w: seq<int>, p: seq<int>, nHeap: nat, nNodes: nat) {
    Small(v) && Grown(f, v, TALLEST) && Mirrors(f, w, p, nNodes) && RootHeap(h, w, nHeap, f.live)
  }

  /** One round of the joining loop. */
  method JoinTwo(heap: array<int>, weight: array<int>, parent: array<int>, nHeap: nat, nNodes: nat, ghost f: Forest,
      ghost v: seq<nat>)
      returns (ghost g: Forest)
    requires heap != weight && heap != parent && weight != parent
    requires nHeap >= 2 && nNodes + 1 < weight.Length == parent.Length && nHeap < heap.Length
    requires Joining(f, v, heap[..], weight[..], parent[..], nHeap, nNodes)
    modifies heap, weight, parent
    ensures Joining(g, v, heap[..], weight[..], parent[..], nHeap - 1, nNodes + 1)
    ensures weight[..nNodes + 1] == old(weight[..nNodes + 1])
  {
    hide *;
    JoiningParts(f, v, heap[..], weight[..], parent[..], nHeap, nNodes);
    MirrorsShape(f, weight[..], parent[..], nNodes);
    ghost var w, p := weight[..], parent[..];
    var n1, n2 := PopTwo(heap, weight, nHeap, p, nNodes, f);
    assert weight[..] == w && parent[..] == p;
    JoinWritten(f, v, w, p, nNodes, n1, n2);
    g := Join(f, n1, n2);
    AddNode(heap, weight, parent, nHeap - 2, nNodes + 1, n1, n2, f.live[n1 := false][n2 := false]);
    assert weight[..nNodes + 1] == w[..nNodes + 1];
    JoiningIntro(g, v, heap[..], weight[..], parent[..], nHeap - 1, nNodes + 1);
  }

  lemma JoiningParts(f: Forest, v: seq<nat>, h: seq<int>, w: seq<int>, p: seq<int>, nHeap: nat, nNodes: nat)
    requires Joining(f, v, h, w, p, nHeap, nNodes)
    ensures Small(v) && Grown(f, v, TALLEST) && Mirrors(f, w, p, nNodes) && RootHeap(h, w, nHeap, f.live)
  {
  }

  lemma JoiningIntro(f: Forest, v: seq<nat>, h: seq<int>, w: seq<int>, p: seq<int>, nHeap: nat, nNodes: nat)
    requires Small(v) && Grown(f, v, TALLEST) && Mirrors(f, w, p, nNodes) && RootHeap(h, w, nHeap, f.live)
    ensures Joining(f, v, h, w, p, nHeap, nNodes)
  {
  }

  lemma MirrorsShape(f: Forest, weight: seq<int>, parent: seq<int>, n: nat)
    requires Mirrors(f, weight, parent, n)
    ensures |f.live| == n + 1 && Shape(f) && n < |weight| && n < |parent| && weight[0] == 0
  {
  }

  /** The finished tree of one round. */
  ghost predicate Finished(f: Forest, v: seq<nat>, parent: seq<int>, n: nat) {
    Small(v) && Grown(f, v, TALLEST) && (exists r: nat :: Single(f, r)) &&
    |f.dep| == |f.root| == |v| && forall i :: 0 <= i < |v| ==> Climbs(parent, n, i + 1, f.root[i], f.dep[i])
  }

  lemma JoiningDone(f: Forest, v: seq<nat>, h: seq<int>, w: seq<int>, p: seq<int>, nNodes: nat)
    requires Joining(f, v, h, w, p, 1, nNodes)
    ensures Finished(f, v, p, nNodes)
  {
    hide Climbs;
    hide Tall;
    hide Thrifty;
    hide Shared;
    OneRoot(h, w, f.live);
    assert Single(f, h[1]);
  }

  lemma JoiningStart(v: seq<nat>, h: seq<int>, w: seq<int>, p: seq<int>)
    requires Small(v) && RootHeap(h, w, |v|, Start(v).live) && Mirrors(Start(v), w, p, |v|)
    ensures Joining(Start(v), v, h, w, p, |v|, |v|)
  {
    StartGrown(v, TALLEST);
  }

  lemma SmallSize(v: seq<nat>)
    requires Small(v)
    ensures 2 <= |v| <= 258 == MAX_ALPHA_SIZE && Positive(v)
  {
  }

  /** One attempt: symbols are joined until one tree is left. */
  method BuildTree(heap: array<int>, weight: array<int>, parent: array<int>, alphaSize: nat, ghost v: seq<nat>)
      returns (ghost f: Forest, ghost n: nat)
    requires heap != weight && heap != parent && weight != parent && |v| == alphaSize && Small(v)
    requires heap.Length == MAX_ALPHA_SIZE + 2 && weight.Length == parent.Length == 2 * MAX_ALPHA_SIZE
    requires Loaded(weight[..], v)
    modifies heap, weight, parent
    ensures Finished(f, v, parent[..], n) && Loaded(weight[..], v)
  {
    hide *;
    SmallSize(v);
    weight[0] := 0;
    LoadedPrefix(old(weight[..]), weight[..], v);
    Plant(heap, weight, parent, alphaSize, v);
    JoiningStart(v, heap[..], weight[..], parent[..]);
    f, n := JoinAll(heap, weight, parent, alphaSize, v);
  }

  /** The joining loop. */
  method JoinAll(heap: array<int>, weight: array<int>, parent: array<int>, alphaSize: nat, ghost v: seq<nat>)
      returns (ghost f: Forest, ghost n: nat)
    requires heap != weight && heap != parent && weight != parent && 1 <= alphaSize <= 258
    requires heap.Length == 260 && weight.Length == parent.Length == 516 && Loaded(weight[..], v) && |v| <= alphaSize
    requires Joining(Start(v), v, heap[..], weight[..], parent[..], alphaSize, alphaSize)
    modifies heap, weight, parent
    ensures Finished(f, v, parent[..], n) && Loaded(weight[..], v)
  {
    hide *;
    var nHeap, nNodes := alphaSize, alphaSize;
    f := Start(v);
    while nHeap > 1
      invariant 1 <= nHeap && nHeap + nNodes == 2 * alphaSize && Loaded(weight[..], v)
      invariant Joining(f, v, heap[..], weight[..], parent[..], nHeap, nNodes)
      decreases nHeap
    {
      ghost var w := weight[..];
      f := JoinTwo(heap, weight, parent, nHeap, nNodes, f, v);
      JoinedPrefix(w, weight[..], nNodes + 1, v);
      nHeap, nNodes := nHeap - 1, nNodes + 1;
    }
    JoiningDone(f, v, heap[..], weight[..], parent[..], nNodes);
    n := nNodes;
  }

  lemma LoadedPrefix(w: seq<int>, w': seq<int>, v: seq<nat>)
    requires Loaded(w, v) && |w| == |w'| && forall i :: 1 <= i < |w| ==> w'[i] == w[i]
    ensures Loaded(w', v)
  {
  }

  lemma JoinedPrefix(w: seq<int>, w': seq<int>, k: nat, v: seq<nat>)
    requires Loaded(w, v) && |w| == |w'| && |v| < k <= |w| && w'[..k] == w[..k]
    ensures Loaded(w', v)
  {
    forall i {:trigger w'[i]} | 1 <= i <= |v| ensures w'[i] == 256 * v[i - 1] {
      assert w'[..k][i] == w[..k][i];
    }
  }

  /* ---------- reading off the lengths ---------- */

  lemma ClimbsAt(parent: seq<int>, n: int, k: int, r: int, d: nat)
    requires Climbs(parent, n, k, r, d)
    ensures 0 <= k < |parent| && (parent[k] >= 0 <==> d > 0)
    ensures d > 0 ==> Climbs(parent, n, parent[k], r, d - 1)
  {
  }

  lemma FinishedAt(f: Forest, v: seq<nat>, parent: seq<int>, n: nat, i: nat)
    requires Finished(f, v, parent, n) && i < |v|
    ensures |f.dep| == |f.root| == |v| && Climbs(parent, n, i + 1, f.root[i], f.dep[i])
  {
  }

  lemma FinishedLow(f: Forest, v: seq<nat>, parent: seq<int>, n: nat)
    requires Finished(f, v, parent, n)
    ensures |f.dep| == |v| && forall i :: 0 <= i < |v| ==> f.dep[i] <= TALLEST
  {
  }

  /** Some symbol lies deeper than allowed. */
  ghost predicate TooLong(dep: seq<nat>, maxLen: nat) {
    exists i :: 0 <= i < |dep| && dep[i] > maxLen
  }

  lemma TooLongPrefix(dep: seq<nat>, maxLen: nat, k: nat)
    requires k < |dep|
    ensures TooLong(dep[..k + 1], maxLen) == (TooLong(dep[..k], maxLen) || dep[k] > maxLen)
    ensures dep[..k] + [dep[k]] == dep[..k + 1]
  {
    if dep[k] > maxLen { assert dep[..k + 1][k] > maxLen; }
    if TooLong(dep[..k], maxLen) {
      var i :| 0 <= i < k && dep[..k][i] > maxLen;
      assert dep[..k + 1][i] > maxLen;
    }
  }

  /** Steps from node i up to its root. */
  method CountSteps(parent: array<int>, i: nat, ghost n: nat, ghost r: nat, ghost d: nat) returns (j: nat)
    requires Climbs(parent[..], n, i, r, d)
    ensures j == d
  {
    hide *;
    var k: int := i;
    j := 0;
    ClimbsAt(parent[..], n, k, r, d);
    while parent[k] >= 0
      invariant 0 <= j <= d && 0 <= k < parent.Length
      invariant Climbs(parent[..], n, k, r, d - j)
      invariant parent[k] >= 0 <==> d - j > 0
      decreases d - j
    {
      ClimbsAt(parent[..], n, k, r, d - j);
      k := parent[k];
      j := j + 1;
      ClimbsAt(parent[..], n, k, r, d - j);
    }
  }

  /** Each symbol's length is the number of steps up to the root. */
  method MeasureLengths(len: array<int>, parent: array<int>, alphaSize: nat, maxLen: nat, ghost f: Forest,
      ghost v: seq<nat>, ghost n: nat)
      returns (tooLong: bool)
    requires len != parent && alphaSize == |v| <= len.Length && Finished(f, v, parent[..], n)
    modifies len
    ensures |f.dep| == |v| && len[..alphaSize] == f.dep && len[alphaSize..] == old(len[alphaSize..])
    ensures tooLong == TooLong(f.dep, maxLen)
  {
    hide *;
    FinishedLow(f, v, parent[..], n);
    tooLong := false;
    ghost var p, l0 := parent[..], len[..];
    var i := 1;
    TooLongEmpty(f.dep, maxLen);
    while i <= alphaSize
      invariant 1 <= i <= alphaSize + 1 && parent[..] == p
      invariant len[..] == f.dep[..i - 1] + l0[i - 1..]
      invariant tooLong == TooLong(f.dep[..i - 1], maxLen)
    {
      FinishedAt(f, v, p, n, i - 1);
      var j := CountSteps(parent, i, n, f.root[i - 1], f.dep[i - 1]);
      TooLongPrefix(f.dep, maxLen, i - 1);
      WriteNext(f.dep, l0, i - 1);
      len[i - 1] := j;
      if j > maxLen { tooLong := true; }
      i := i + 1;
    }
    LengthsWritten(f.dep, l0, len[..], alphaSize);
  }

  lemma WriteNext(dep: seq<nat>, l0: seq<int>, k: nat)
    requires k < |dep| <= |l0|
    ensures (dep[..k] + l0[k..])[k := dep[k]] == dep[..k + 1] + l0[k + 1..]
  {
  }

  lemma LengthsWritten(dep: seq<nat>, l0: seq<int>, l: seq<int>, k: nat)
    requires k == |dep| <= |l0| && l == dep[..k] + l0[k..]
    ensures l[..k] == dep && l[k..] == l0[k..] && dep[..k] == dep
  {
  }

  lemma TooLongEmpty(dep: seq<nat>, maxLen: nat)
    ensures !TooLong(dep[..0], maxLen)
  {
  }

  /* ---------- scaling ---------- */

  lemma ScaledAt(v: seq<nat>, i: nat)
    requires i < |v|
    ensures (1 + ((256 * v[i]) / 256) / 2) * 256 == 256 * Halved(v)[i]
  {
  }

  /** The first k weights scaled, the others not yet. */
  ghost predicate PartScaled(weight: seq<int>, v: seq<nat>, k: nat) {
    |v| < |weight| && forall i {:trigger weight[i]} ::
    1 <= i <= |v| ==> weight[i] == 256 * (if i <= k then Halved(v)[i - 1] else v[i - 1])
  }

  lemma PartScaledStep(weight: seq<int>, v: seq<nat>, i: nat)
    requires 1 <= i <= |v| && PartScaled(weight, v, i - 1)
    ensures i < |weight| && PartScaled(weight[i := (1 + (weight[i] / 256) / 2) * 256], v, i)
  {
    ScaledAt(v, i - 1);
    assert weight[i] == 256 * v[i - 1];
  }

  lemma PartScaledStart(weight: seq<int>, v: seq<nat>)
    requires Loaded(weight, v)
    ensures PartScaled(weight, v, 0) && |v| < |weight|
  {
  }

  method ScaleWeights(weight: array<int>, alphaSize: nat, ghost v: seq<nat>)
    requires |v| == alphaSize && Loaded(weight[..], v)
    modifies weight
    ensures Loaded(weight[..], Halved(v))
  {
    hide *;
    PartScaledStart(weight[..], v);
    var i := 1;
    while i <= alphaSize
      invariant 1 <= i <= alphaSize + 1 && PartScaled(weight[..], v, i - 1)
    {
      PartScaledStep(weight[..], v, i);
      var j := weight[i] / 256;
      j := 1 + j / 2;
      weight[i] := j * 256;
      i := i + 1;
    }
    PartScaledDone(weight[..], v);
  }

  lemma PartScaledDone(weight: seq<int>, v: seq<nat>)
    requires PartScaled(weight, v, |v|)
    ensures Loaded(weight, Halved(v))
  {
  }

  /* ---------- the whole ---------- */

  /** A code for these weights: complete, within maxLen bits, and none is cheaper. */
  ghost predicate BestCode(v: seq<nat>, lens: seq<int>, maxLen: nat) {
    |lens| == |v| && (forall i :: 0 <= i < |lens| ==> 1 <= lens[i] <= maxLen) &&
    CanonicalCode.Complete(lens, maxLen) && Cheapest(v, lens)
  }

  /** What an attempt yields. */
  lemma FinishedBest(f: Forest, v: seq<nat>, parent: seq<int>, n: nat, maxLen: nat)
    requires Finished(f, v, parent, n)
    ensures BestCode(v, f.dep, if TooLong(f.dep, maxLen) then TALLEST else maxLen)
    ensures TooLong(f.dep, maxLen) ==> Sum(v, |v|) >= Least(maxLen + 1)
  {
    var r := FinishedRoot(f, v, parent, n);
    hide Finished;
    hide Grown;
    hide Single;
    hide Cheapest;
    SingleOptimal(f, v, TALLEST, r);
    SinglePositive(f, v, TALLEST, r);
    assert CanonicalCode.Complete(f.dep, TALLEST);
    if TooLong(f.dep, maxLen) {
      FinishedHigh(f, v, r, maxLen);
    } else {
      assert CanonicalCode.Lengths(f.dep, maxLen);
      if maxLen <= TALLEST {
        CanonicalCode.CompleteUnit(f.dep, maxLen, TALLEST);
      } else {
        CanonicalCode.CompleteUnit(f.dep, TALLEST, maxLen);
      }
    }
  }

  lemma FinishedRoot(f: Forest, v: seq<nat>, parent: seq<int>, n: nat) returns (r: nat)
    requires Finished(f, v, parent, n)
    ensures Single(f, r) && Grown(f, v, TALLEST) && |v| >= 2 && |f.dep| == |f.root| == |v|
  {
    r :| Single(f, r);
  }

  /** A symbol below maxLen needs a tree at least as heavy as its height asks. */
  lemma FinishedHigh(f: Forest, v: seq<nat>, r: nat, maxLen: nat)
    requires Grown(f, v, TALLEST) && Single(f, r) && TooLong(f.dep, maxLen)
    ensures Sum(v, |v|) >= Least(maxLen + 1)
  {
    hide Thrifty;
    hide Shared;
    hide Least;
    var i :| 0 <= i < |f.dep| && f.dep[i] > maxLen;
    assert f.dep[i] <= f.d[f.root[i]];
    GrownLow(f, v, TALLEST, r);
    LeastMonotone(maxLen + 1, f.d[r]);
  }

  /** An attempt can only be too long while some weight still shrinks. */
  lemma ScalingProgress(v: seq<nat>, maxLen: nat)
    requires Small(v) && maxLen >= 12 && Sum(v, |v|) >= Least(maxLen + 1)
    ensures Small(Halved(v)) && Sum(Halved(v), |v|) < Sum(v, |v|)
  {
    HalvedSum(v, |v|);
    if Sum(Halved(v), |v|) == Sum(v, |v|) {
      SmallSum(v, |v|);
      Least13();
      LeastMonotone(13, maxLen + 1);
    }
  }

  /** A cheapest code for these weights is too long. */
  ghost predicate Overlong(v: seq<nat>, maxLen: nat) {
    exists lens: seq<nat> :: BestCode(v, lens, TALLEST) && TooLong(lens, maxLen)
  }

  lemma OverlongIntro(dep: seq<nat>, v: seq<nat>, maxLen: nat)
    requires BestCode(v, dep, TALLEST) && TooLong(dep, maxLen)
    ensures Overlong(v, maxLen)
  {
  }

  lemma RoundsZero(v: seq<nat>)
    ensures Rounds(v, 0) == v
  {
  }

  lemma RoundsNext(v: seq<nat>, t: nat)
    ensures Rounds(v, t + 1) == Halved(Rounds(v, t))
  {
  }

  /** The weights of the symbols, counting an unused symbol as used once. */
  method LoadFreq(weight: array<int>, freq: array<int>, alphaSize: nat)
    requires weight != freq && alphaSize < weight.Length && alphaSize <= freq.Length
    requires forall i :: 0 <= i < alphaSize ==> freq[i] >= 0
    modifies weight
    ensures Loaded(weight[..], Weights(freq[..alphaSize]))
  {
    ghost var v := Weights(freq[..alphaSize]);
    var i := 0;
    while i < alphaSize
      invariant 0 <= i <= alphaSize
      invariant forall j {:trigger weight[j]} :: 1 <= j <= i ==> weight[j] == 256 * v[j - 1]
    {
      weight[i + 1] := (if freq[i] == 0 then 1 else freq[i]) * 256;
      assert v[i] == if freq[i] == 0 then 1 else freq[i];
      i := i + 1;
    }
  }

  /** Build a tree and read off the lengths. */
  method Attempt(len: array<int>, heap: array<int>, weight: array<int>, parent: array<int>, alphaSize: nat, maxLen: nat,
      ghost v: seq<nat>)
      returns (tooLong: bool)
    requires heap != weight && heap != parent && weight != parent && len != heap && len != weight && len != parent
    requires heap.Length == MAX_ALPHA_SIZE + 2 && weight.Length == parent.Length == 2 * MAX_ALPHA_SIZE
    requires |v| == alphaSize <= len.Length && Small(v) && Loaded(weight[..], v)
    modifies len, heap, weight, parent
    ensures Loaded(weight[..], v) && len[alphaSize..] == old(len[alphaSize..])
    ensures !tooLong ==> BestCode(v, len[..alphaSize], maxLen)
    ensures tooLong ==> Overlong(v, maxLen) && Sum(v, alphaSize) >= Least(maxLen + 1)
  {
    hide *;
    ghost var f, n := BuildTree(heap, weight, parent, alphaSize, v);
    ghost var w := weight[..];
    FinishedBest(f, v, parent[..], n, maxLen);
    tooLong := MeasureLengths(len, parent, alphaSize, maxLen, f, v, n);
    assert weight[..] == w;
    if tooLong { OverlongIntro(f.dep, v, maxLen); }
  }

  lemma SmallWeights(freq: seq<int>)
    requires 2 <= |freq| <= MAX_ALPHA_SIZE && Sum(Weights(freq), |freq|) < 0x80_0000
    ensures Small(Weights(freq)) && MAX_ALPHA_SIZE == 258
  {
  }

  /** BZ2_hbMakeCodeLengths. Terminates whenever maxLen is at least 12; the caller passes 17. */
  method MakeCodeLengths(len: array<int>, freq: array<int>, alphaSize: nat, maxLen: nat) returns (ghost rounds: nat)
    requires len != freq && alphaSize <= len.Length && alphaSize <= freq.Length && maxLen >= 12
    requires 2 <= alphaSize <= MAX_ALPHA_SIZE && (forall i :: 0 <= i < alphaSize ==> freq[i] >= 0)
    requires Sum(Weights(freq[..alphaSize]), alphaSize) < 0x80_0000
    modifies len
    ensures BestCode(Rounds(Weights(freq[..alphaSize]), rounds), len[..alphaSize], maxLen)
    ensures len[alphaSize..] == old(len[alphaSize..])
    // weights are scaled only after a cheapest code for the previous weights was too long
    ensures forall t :: 0 <= t < rounds ==> Overlong(Rounds(Weights(freq[..alphaSize]), t), maxLen)
    ensures Sum(Weights(freq[..alphaSize]), alphaSize) < Least(maxLen + 1) ==> rounds == 0
  {
    hide *;
    ghost var v := Weights(freq[..alphaSize]);
    SmallWeights(freq[..alphaSize]);
    var heap, weight, parent := new int[260], new int[516], new int[516];
    LoadFreq(weight, freq, alphaSize);
    rounds := 0;
    ghost var u := v;
    RoundsZero(v);
    while true
      invariant freq[..alphaSize] == old(freq[..alphaSize]) && len[alphaSize..] == old(len[alphaSize..])
      invariant |u| == alphaSize && u == Rounds(v, rounds) && Loaded(weight[..], u) && Small(u)
      invariant forall t :: 0 <= t < rounds ==> Overlong(Rounds(v, t), maxLen)
      invariant rounds > 0 ==> Sum(v, alphaSize) >= Least(maxLen + 1)
      invariant Sum(u, alphaSize) <= Sum(v, alphaSize)
      decreases Sum(u, alphaSize)
    {
      var tooLong := Attempt(len, heap, weight, parent, alphaSize, maxLen, u);
      if !tooLong { break; }
      ScalingProgress(u, maxLen);
      RoundsNext(v, rounds);
      ScaleWeights(weight, alphaSize, u);
      u := Halved(u);
      rounds := rounds + 1;
    }
  }
}
