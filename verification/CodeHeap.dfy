/** The array heap of huffman.c: entries are node numbers, ordered by the nodes' weights. Entries run
    from 1; entry 0 is a sentinel naming node 0, which weighs less than every real node. */
module CodeHeap {
  import opened RangePermutation

  /** Entries 1..n are node numbers. */
  ghost predicate Entries(h: seq<int>, w: seq<int>, n: nat) {
    n < |h| && |w| > 0 && h[0] == 0 && forall k :: 0 <= k <= n ==> 0 <= h[k] < |w|
  }

  /** Weight of the node at entry k. */
  ghost function Key(h: seq<int>, w: seq<int>, k: nat): (v: int)
    requires k < |h| && 0 <= h[k] < |w|
  {
    w[h[k]]
  }

  /** The sentinel is lighter than the entries. */
  ghost predicate Guarded(h: seq<int>, w: seq<int>, n: nat)
    requires Entries(h, w, n)
  {
    forall k {:trigger Key(h, w, k)} :: 1 <= k <= n ==> Key(h, w, 0) < Key(h, w, k)
  }

  /** No entry but possibly z is lighter than its parent, and z's children are no lighter than z's
      parent. With z == 0 that is heap order. */
  ghost predicate OrderedUp(h: seq<int>, w: seq<int>, n: nat, z: nat)
    requires Entries(h, w, n)
  {
    forall k {:trigger Key(h, w, k)} :: 2 <= k <= n ==>
      (k != z ==> Key(h, w, k / 2) <= Key(h, w, k)) &&
      (k / 2 == z && z >= 2 ==> Key(h, w, z / 2) <= Key(h, w, k))
  }

  /** No entry but possibly the children of z is lighter than its parent. */
  ghost predicate OrderedDown(h: seq<int>, w: seq<int>, n: nat, z: nat)
    requires Entries(h, w, n)
  {
    forall k {:trigger Key(h, w, k)} :: 2 <= k <= n ==>
      (k / 2 != z ==> Key(h, w, k / 2) <= Key(h, w, k)) &&
      (k / 2 == z && z >= 2 ==> Key(h, w, z / 2) <= Key(h, w, k))
  }

  ghost predicate Ordered(h: seq<int>, w: seq<int>, n: nat)
    requires Entries(h, w, n)
  {
    forall k {:trigger Key(h, w, k)} :: 2 <= k <= n ==> Key(h, w, k / 2) <= Key(h, w, k)
  }

  /** The nodes in entries 1..n. */
  ghost function Nodes(h: seq<int>, n: nat): (m: multiset<int>)
    requires n < |h|
  {
    multiset(h[1..n + 1])
  }

  /** The first entry of a heap is lightest. */
  lemma {:induction false} RootLeast(h: seq<int>, w: seq<int>, n: nat, k: nat)
    requires Entries(h, w, n) && Ordered(h, w, n) && 1 <= k <= n
    ensures Key(h, w, 1) <= Key(h, w, k)
    decreases k
  {
    if k >= 2 {
      RootLeast(h, w, n, k / 2);
      assert Key(h, w, k / 2) <= Key(h, w, k);
    }
  }

  lemma RootLightest(h: seq<int>, w: seq<int>, n: nat)
    requires Entries(h, w, n) && Ordered(h, w, n) && n >= 1
    ensures h[1] in Nodes(h, n)
    ensures forall x :: x in Nodes(h, n) ==> 0 <= x < |w| && w[h[1]] <= w[x]
  {
    assert h[1..n + 1][0] == h[1];
    forall x | x in Nodes(h, n) ensures 0 <= x < |w| && w[h[1]] <= w[x] {
      assert x in h[1..n + 1];
      var k :| 0 <= k < n && h[1..n + 1][k] == x;
      RootLeast(h, w, n, k + 1);
    }
  }

  /** Two entries exchanged. */
  ghost function Swap(h: seq<int>, i: nat, j: nat): (r: seq<int>)
    requires i < |h| && j < |h|
  {
    h[i := h[j]][j := h[i]]
  }

  lemma SwapKeeps(h: seq<int>, w: seq<int>, n: nat, i: nat, j: nat)
    requires Entries(h, w, n) && Guarded(h, w, n) && 1 <= i <= n && 1 <= j <= n
    ensures Entries(Swap(h, i, j), w, n) && Guarded(Swap(h, i, j), w, n)
    ensures Nodes(Swap(h, i, j), n) == Nodes(h, n)
    ensures forall k :: 0 <= k <= n ==>
      Key(Swap(h, i, j), w, k) == (if k == i then Key(h, w, j) else if k == j then Key(h, w, i) else Key(h, w, k))
  {
    PermSwap(h, i, j, 1, n);
    var r := Swap(h, i, j);
    assert Key(r, w, 0) == Key(h, w, 0);
    forall k {:trigger Key(r, w, k)} | 1 <= k <= n ensures Key(r, w, 0) < Key(r, w, k) {
      assert Key(h, w, 0) < Key(h, w, i) && Key(h, w, 0) < Key(h, w, j) && Key(h, w, 0) < Key(h, w, k);
    }
  }

  /** Moving z's entry to its parent's place. */
  lemma StepUp(h: seq<int>, w: seq<int>, n: nat, z: nat)
    requires Entries(h, w, n) && Guarded(h, w, n) && 1 <= z <= n && OrderedUp(h, w, n, z)
    requires Key(h, w, z) < Key(h, w, z / 2)
    ensures z >= 2 && Entries(Swap(h, z, z / 2), w, n) && Guarded(Swap(h, z, z / 2), w, n)
    ensures OrderedUp(Swap(h, z, z / 2), w, n, z / 2) && Nodes(Swap(h, z, z / 2), n) == Nodes(h, n)
  {
    assert Key(h, w, 0) < Key(h, w, z);
    assert z >= 2;
    SwapKeeps(h, w, n, z, z / 2);
    var r, y := Swap(h, z, z / 2), z / 2;
    forall k {:trigger Key(r, w, k)} | 2 <= k <= n
      ensures (k != y ==> Key(r, w, k / 2) <= Key(r, w, k)) &&
        (k / 2 == y && y >= 2 ==> Key(r, w, y / 2) <= Key(r, w, k))
    {
      assert Key(h, w, y) == Key(h, w, z / 2);
      assert k != z ==> Key(h, w, k / 2) <= Key(h, w, k);
      if y >= 2 { assert Key(h, w, y / 2) <= Key(h, w, y); }
    }
  }

  /** Once z is no lighter than its parent the heap is in order. */
  lemma DoneUp(h: seq<int>, w: seq<int>, n: nat, z: nat)
    requires Entries(h, w, n) && 1 <= z <= n && OrderedUp(h, w, n, z) && Key(h, w, z / 2) <= Key(h, w, z)
    ensures Ordered(h, w, n)
  {
  }

  /** Where the loop of UPHEAP keeps the moving entry: at the hole z. */
  ghost predicate Rising(h: seq<int>, h0: seq<int>, w: seq<int>, n: nat, z: nat, tmp: int) {
    |h| == |h0| && n < |h| && 1 <= z <= n &&
    var v := h[z := tmp];
    Entries(v, w, n) && Guarded(v, w, n) && OrderedUp(v, w, n, z) && Nodes(v, n) == Nodes(h0, n) &&
    h[n + 1..] == h0[n + 1..]
  }

  lemma RisingBounds(h: seq<int>, h0: seq<int>, w: seq<int>, n: nat, z: nat, tmp: int)
    requires Rising(h, h0, w, n, z, tmp)
    ensures 1 <= z <= n < |h| && 0 <= tmp < |w| && 0 <= h[z / 2] < |w|
  {
    var v := h[z := tmp];
    assert v[z / 2] == h[z / 2] && v[z] == tmp;
  }

  lemma RisingStart(h: seq<int>, w: seq<int>, n: nat)
    requires n >= 1 && Entries(h, w, n) && Guarded(h, w, n) && Ordered(h, w, n - 1)
    ensures Rising(h, h, w, n, n, h[n])
  {
    assert h[n := h[n]] == h;
    assert forall k {:trigger Key(h, w, k)} :: 2 <= k < n ==> Key(h, w, k / 2) <= Key(h, w, k);
    assert OrderedUp(h, w, n, n);
  }

  lemma RisingStep(h: seq<int>, h0: seq<int>, w: seq<int>, n: nat, z: nat, tmp: int)
    requires Rising(h, h0, w, n, z, tmp) && 0 <= tmp < |w| && 0 <= h[z / 2] < |w| && w[tmp] < w[h[z / 2]]
    ensures Rising(h[z := h[z / 2]], h0, w, n, z / 2, tmp)
  {
    var v := h[z := tmp];
    assert Key(v, w, z) == w[tmp] && v[z / 2] == h[z / 2];
    hide OrderedUp;
    hide Guarded;
    hide Nodes;
    hide Swap;
    StepUp(v, w, n, z);
    HoleSwap(h, z, z / 2, tmp);
  }

  lemma RisingDone(h: seq<int>, h0: seq<int>, w: seq<int>, n: nat, z: nat, tmp: int)
    requires Rising(h, h0, w, n, z, tmp) && 0 <= tmp < |w| && 0 <= h[z / 2] < |w| && !(w[tmp] < w[h[z / 2]])
    ensures Entries(h[z := tmp], w, n) && Guarded(h[z := tmp], w, n) && Ordered(h[z := tmp], w, n)
    ensures Nodes(h[z := tmp], n) == Nodes(h0, n) && h[z := tmp][n + 1..] == h0[n + 1..]
  {
    var v := h[z := tmp];
    assert v[z / 2] == h[z / 2] && v[z] == tmp;
    DoneUp(v, w, n, z);
    assert v[n + 1..] == h[n + 1..];
  }

  /** UPHEAP(z) for the newly added last entry. */
  method UpHeap(heap: array<int>, weight: array<int>, z: nat)
    requires heap != weight && z >= 1 && Entries(heap[..], weight[..], z) && Guarded(heap[..], weight[..], z)
    requires Ordered(heap[..], weight[..], z - 1)
    modifies heap
    ensures Entries(heap[..], weight[..], z) && Guarded(heap[..], weight[..], z) && Ordered(heap[..], weight[..], z)
    ensures Nodes(heap[..], z) == Nodes(old(heap[..]), z) && heap[z + 1..] == old(heap[z + 1..])
  {
    hide *;
    ghost var h0, w := heap[..], weight[..];
    EntryBounds(h0, w, z);
    var zz, tmp := z, heap[z];
    RisingStart(h0, w, z);
    RisingBounds(heap[..], h0, w, z, zz, tmp);
    while weight[tmp] < weight[heap[zz / 2]]
      invariant 1 <= zz <= z < heap.Length && 0 <= tmp < weight.Length && 0 <= heap[zz / 2] < weight.Length
      invariant weight[..] == w && Rising(heap[..], h0, w, z, zz, tmp)
      decreases zz
    {
      RisingStep(heap[..], h0, w, z, zz, tmp);
      heap[zz] := heap[zz / 2];
      zz := zz / 2;
      RisingBounds(heap[..], h0, w, z, zz, tmp);
    }
    RisingDone(heap[..], h0, w, z, zz, tmp);
    heap[zz] := tmp;
    assert heap[z + 1..] == heap[..][z + 1..] && old(heap[z + 1..]) == h0[z + 1..];
  }

  lemma EntryBounds(h: seq<int>, w: seq<int>, n: nat)
    requires Entries(h, w, n)
    ensures n < |h| && forall k :: 0 <= k <= n ==> 0 <= h[k] < |w|
  {
  }

  /* ---------- the other way ---------- */

  /** The lighter child of z moves up. */
  lemma StepDown(h: seq<int>, w: seq<int>, n: nat, z: nat, y: nat)
    requires Entries(h, w, n) && Guarded(h, w, n) && 1 <= z && y / 2 == z && y <= n && OrderedDown(h, w, n, z)
    requires forall k {:trigger Key(h, w, k)} :: 2 <= k <= n && k / 2 == z ==> Key(h, w, y) <= Key(h, w, k)
    requires Key(h, w, y) <= Key(h, w, z)
    ensures Entries(Swap(h, z, y), w, n) && Guarded(Swap(h, z, y), w, n)
    ensures OrderedDown(Swap(h, z, y), w, n, y) && Nodes(Swap(h, z, y), n) == Nodes(h, n)
  {
    SwapKeeps(h, w, n, z, y);
    var r := Swap(h, z, y);
    forall k {:trigger Key(r, w, k)} | 2 <= k <= n
      ensures (k / 2 != y ==> Key(r, w, k / 2) <= Key(r, w, k)) &&
        (k / 2 == y && y >= 2 ==> Key(r, w, y / 2) <= Key(r, w, k))
    {
      assert Key(h, w, k) == Key(h, w, k);
      assert k / 2 == z ==> Key(h, w, y) <= Key(h, w, k);
      assert k / 2 != z ==> Key(h, w, k / 2) <= Key(h, w, k);
      if z >= 2 { assert Key(h, w, z / 2) <= Key(h, w, y); }
    }
  }

  /** Once z is no heavier than its children the heap is in order. */
  lemma DoneDown(h: seq<int>, w: seq<int>, n: nat, z: nat)
    requires Entries(h, w, n) && OrderedDown(h, w, n, z)
    requires forall k {:trigger Key(h, w, k)} :: 2 <= k <= n && k / 2 == z ==> Key(h, w, z) <= Key(h, w, k)
    ensures Ordered(h, w, n)
  {
  }

  ghost predicate Sinking(h: seq<int>, h0: seq<int>, w: seq<int>, n: nat, z: nat, tmp: int) {
    |h| == |h0| && n < |h| && 1 <= z <= n &&
    var v := h[z := tmp];
    Entries(v, w, n) && Guarded(v, w, n) && OrderedDown(v, w, n, z) && Nodes(v, n) == Nodes(h0, n)
  }

  lemma SinkingBounds(h: seq<int>, h0: seq<int>, w: seq<int>, n: nat, z: nat, tmp: int)
    requires Sinking(h, h0, w, n, z, tmp)
    ensures 1 <= z <= n < |h| && 0 <= tmp < |w|
    ensures forall k :: 0 <= k <= n && k != z ==> 0 <= h[k] < |w|
  {
    var v := h[z := tmp];
    assert v[z] == tmp;
    forall k | 0 <= k <= n && k != z ensures 0 <= h[k] < |w| { assert v[k] == h[k]; }
  }

  /** The first entry may be in the wrong place, the others are in order. */
  lemma SinkingStart(h: seq<int>, w: seq<int>, n: nat)
    requires n >= 1 && Entries(h, w, n) && Guarded(h, w, n) && OrderedDown(h, w, n, 1)
    ensures Sinking(h, h, w, n, 1, h[1])
  {
    assert h[1 := h[1]] == h;
  }

  /** y is a lightest child of z. */
  ghost predicate LightChild(h: seq<int>, w: seq<int>, n: nat, z: nat, y: nat)
    requires n < |h|
  {
    y / 2 == z && 2 <= y <= n && 0 <= h[y] < |w| &&
    (2 * z + 1 <= n ==>
    0 <= h[2 * z] < |w| && 0 <= h[2 * z + 1] < |w| && w[h[y]] <= w[h[2 * z]] && w[h[y]] <= w[h[2 * z + 1]])
  }

  lemma LightChildKey(v: seq<int>, w: seq<int>, n: nat, z: nat, y: nat)
    requires Entries(v, w, n) && 1 <= z <= n && LightChild(v, w, n, z, y)
    ensures forall k {:trigger Key(v, w, k)} :: 2 <= k <= n && k / 2 == z ==> Key(v, w, y) <= Key(v, w, k)
  {
    forall k {:trigger Key(v, w, k)} | 2 <= k <= n && k / 2 == z ensures Key(v, w, y) <= Key(v, w, k) {
      assert k == 2 * z || k == 2 * z + 1;
      assert y == 2 * z || y == 2 * z + 1;
    }
  }

  lemma LightChildHole(h: seq<int>, w: seq<int>, n: nat, z: nat, tmp: int, y: nat)
    requires n < |h| && 1 <= z < |h| && LightChild(h, w, n, z, y)
    ensures LightChild(h[z := tmp], w, n, z, y) && h[z := tmp][y] == h[y] && h[z := tmp][z] == tmp
  {
  }

  /** Moving the entry at i into the hole z and the hole to i is exchanging the two. */
  lemma HoleSwap(h: seq<int>, z: nat, i: nat, tmp: int)
    requires z < |h| && i < |h| && i != z
    ensures h[z := h[i]][i := tmp] == Swap(h[z := tmp], z, i)
  {
  }

  lemma SinkingStep(h: seq<int>, h0: seq<int>, w: seq<int>, n: nat, z: nat, tmp: int, y: nat)
    requires Sinking(h, h0, w, n, z, tmp) && LightChild(h, w, n, z, y) && 0 <= tmp < |w| && !(w[tmp] < w[h[y]])
    ensures Sinking(h[z := h[y]], h0, w, n, y, tmp)
  {
    hide OrderedDown;
    hide Guarded;
    hide Nodes;
    hide Swap;
    var v := h[z := tmp];
    LightChildHole(h, w, n, z, tmp, y);
    assert y / 2 == z && y != z;
    hide LightChild;
    LightChildKey(v, w, n, z, y);
    StepDown(v, w, n, z, y);
    HoleSwap(h, z, y, tmp);
  }

  lemma SinkingDone(h: seq<int>, h0: seq<int>, w: seq<int>, n: nat, z: nat, tmp: int, y: nat)
    requires Sinking(h, h0, w, n, z, tmp) && 0 <= tmp < |w|
    requires 2 * z > n || (LightChild(h, w, n, z, y) && w[tmp] < w[h[y]])
    ensures Entries(h[z := tmp], w, n) && Guarded(h[z := tmp], w, n) && Ordered(h[z := tmp], w, n)
    ensures Nodes(h[z := tmp], n) == Nodes(h0, n)
  {
    var v := h[z := tmp];
    assert v[z] == tmp;
    if 2 * z <= n {
      assert LightChild(v, w, n, z, y);
      LightChildKey(v, w, n, z, y);
      assert Key(v, w, z) < Key(v, w, y);
    }
    DoneDown(v, w, n, z);
  }

  /** DOWNHEAP(1): the first entry sinks to its place. */
  method DownHeap(heap: array<int>, weight: array<int>, nHeap: nat)
    requires heap != weight && 1 <= nHeap && Entries(heap[..], weight[..], nHeap) &&
      Guarded(heap[..], weight[..], nHeap)
    requires OrderedDown(heap[..], weight[..], nHeap, 1)
    modifies heap
    ensures Entries(heap[..], weight[..], nHeap) && Guarded(heap[..], weight[..], nHeap) &&
      Ordered(heap[..], weight[..], nHeap)
    ensures Nodes(heap[..], nHeap) == Nodes(old(heap[..]), nHeap)
  {
    hide *;
    ghost var h0, w := heap[..], weight[..];
    EntryBounds(h0, w, nHeap);
    var zz, tmp := 1, heap[1];
    SinkingStart(h0, w, nHeap);
    var yy := 2;
    while true
      invariant weight[..] == w && Sinking(heap[..], h0, w, nHeap, zz, tmp)
      decreases nHeap - zz
    {
      SinkingBounds(heap[..], h0, w, nHeap, zz, tmp);
      yy := 2 * zz;
      if yy > nHeap { break; }
      if yy < nHeap {
        if weight[heap[yy + 1]] < weight[heap[yy]] { yy := yy + 1; }
      }
      ChildIsLight(heap[..], w, nHeap, zz, yy);
      if weight[tmp] < weight[heap[yy]] { break; }
      SinkingStep(heap[..], h0, w, nHeap, zz, tmp, yy);
      heap[zz] := heap[yy];
      zz := yy;
    }
    SinkingBounds(heap[..], h0, w, nHeap, zz, tmp);
    SinkingDone(heap[..], h0, w, nHeap, zz, tmp, yy);
    heap[zz] := tmp;
  }

  lemma ChildIsLight(h: seq<int>, w: seq<int>, n: nat, z: nat, y: nat)
    requires n < |h| && 1 <= z && (y == 2 * z || y == 2 * z + 1) && y <= n
    requires forall k :: 0 <= k <= n && k != z ==> 0 <= h[k] < |w|
    requires 2 * z < n ==> y == (if w[h[2 * z + 1]] < w[h[2 * z]] then 2 * z + 1 else 2 * z)
    ensures LightChild(h, w, n, z, y)
  {
  }

  /* ---------- taking the lightest, adding one ---------- */

  ghost function Without(nodes: multiset<int>, x: int): (m: multiset<int>) {
    nodes - multiset{x}
  }

  ghost function With(nodes: multiset<int>, x: int): (m: multiset<int>) {
    nodes + multiset{x}
  }

  /** n1 is a lightest of the nodes. */
  ghost predicate LightestOf(w: seq<int>, nodes: multiset<int>, n1: int) {
    n1 in nodes && 0 <= n1 < |w| && forall x :: x in nodes ==> 0 <= x < |w| && w[n1] <= w[x]
  }

  /** A heap of the given nodes. */
  ghost predicate Heap(h: seq<int>, w: seq<int>, n: nat, nodes: multiset<int>) {
    Entries(h, w, n) && Guarded(h, w, n) && Ordered(h, w, n) && Nodes(h, n) == nodes
  }

  /** The last entry replaces the first: what is left in entries 1..n-1. */
  lemma LastToFrontNodes(h: seq<int>, n: nat)
    requires 1 <= n < |h|
    ensures Nodes(h[1 := h[n]], n - 1) == Nodes(h, n) - multiset{h[1]}
  {
    var h' := h[1 := h[n]];
    if n > 1 {
      assert h[1..n + 1] == [h[1]] + h[2..n] + [h[n]];
      assert h'[1..n] == [h[n]] + h[2..n];
    } else {
      assert h[1..2] == [h[1]];
      assert h'[1..1] == [];
    }
  }

  lemma LastToFrontOrder(h: seq<int>, w: seq<int>, n: nat)
    requires Entries(h, w, n) && Guarded(h, w, n) && Ordered(h, w, n) && n >= 1
    ensures Entries(h[1 := h[n]], w, n - 1) && Guarded(h[1 := h[n]], w, n - 1)
    ensures OrderedDown(h[1 := h[n]], w, n - 1, 1) && (n == 1 ==> Ordered(h[1 := h[n]], w, 0))
  {
    var h' := h[1 := h[n]];
    forall k {:trigger h'[k]} | 0 <= k <= n - 1 ensures h'[k] == if k == 1 then h[n] else h[k] {
    }
    forall k {:trigger Key(h', w, k)} | 0 <= k <= n - 1
      ensures Key(h', w, k) == (if k == 1 then Key(h, w, n) else Key(h, w, k)) {
    }
  }

  lemma LastToFront(h: seq<int>, w: seq<int>, n: nat, nodes: multiset<int>)
    requires Heap(h, w, n, nodes) && n >= 1
    ensures n < |h| && LightestOf(w, nodes, h[1])
    ensures n == 1 ==> Heap(h[1 := h[n]], w, 0, Without(nodes, h[1]))
    ensures Entries(h[1 := h[n]], w, n - 1) && Guarded(h[1 := h[n]], w, n - 1)
    ensures OrderedDown(h[1 := h[n]], w, n - 1, 1) && Nodes(h[1 := h[n]], n - 1) == Without(nodes, h[1])
  {
    hide Ordered;
    hide OrderedDown;
    hide Guarded;
    hide Nodes;
    RootLightest(h, w, n);
    LastToFrontNodes(h, n);
    LastToFrontOrder(h, w, n);
  }

  method PopLightest(heap: array<int>, weight: array<int>, nHeap: nat, ghost nodes: multiset<int>) returns (n1: int)
    requires heap != weight && 1 <= nHeap && Heap(heap[..], weight[..], nHeap, nodes)
    modifies heap
    ensures LightestOf(weight[..], nodes, n1)
    ensures Heap(heap[..], weight[..], nHeap - 1, Without(nodes, n1))
  {
    hide *;
    LastToFront(heap[..], weight[..], nHeap, nodes);
    n1 := heap[1];
    heap[1] := heap[nHeap];
    if nHeap > 1 {  // with no entry left DOWNHEAP moves nothing
      DownHeap(heap, weight, nHeap - 1);
      HeapIntro(heap[..], weight[..], nHeap - 1, Without(nodes, n1));
    }
  }

  lemma HeapIntro(h: seq<int>, w: seq<int>, n: nat, nodes: multiset<int>)
    requires Entries(h, w, n) && Guarded(h, w, n) && Ordered(h, w, n) && Nodes(h, n) == nodes
    ensures Heap(h, w, n, nodes)
  {
  }

  lemma AddLast(h: seq<int>, w: seq<int>, n: nat, nodes: multiset<int>, x: int)
    requires Heap(h, w, n, nodes) && n + 1 < |h| && 0 <= x < |w| && w[0] < w[x]
    ensures var h' := h[n + 1 := x];
      Entries(h', w, n + 1) && Guarded(h', w, n + 1) && Ordered(h', w, n) && Nodes(h', n + 1) == With(nodes, x)
  {
    var h' := h[n + 1 := x];
    assert h'[1..n + 2] == h[1..n + 1] + [x];
    forall k {:trigger Key(h', w, k)} | 0 <= k <= n + 1
      ensures 0 <= h'[k] < |w| && Key(h', w, k) == (if k == n + 1 then w[x] else Key(h, w, k)) {
      assert h'[k] == (if k == n + 1 then x else h[k]);
    }
  }

  method Push(heap: array<int>, weight: array<int>, nHeap: nat, x: int, ghost nodes: multiset<int>)
    requires heap != weight && Heap(heap[..], weight[..], nHeap, nodes) && nHeap + 1 < heap.Length
    requires 0 <= x < weight.Length && weight[0] < weight[x]
    modifies heap
    ensures Heap(heap[..], weight[..], nHeap + 1, With(nodes, x))
  {
    hide *;
    AddLast(heap[..], weight[..], nHeap, nodes, x);
    heap[nHeap + 1] := x;
    UpHeap(heap, weight, nHeap + 1);
    HeapIntro(heap[..], weight[..], nHeap + 1, With(nodes, x));
  }

  /* ---------- a heap of roots ---------- */

  /** The node numbers marked in live. */
  ghost function Roots(live: seq<bool>, k: nat): (m: multiset<int>)
    requires k <= |live|
  {
    if k == 0 then multiset{} else Roots(live, k - 1) + (if live[k - 1] then multiset{k - 1} else multiset{})
  }

  lemma {:induction false} RootsAre(live: seq<bool>, k: nat, x: int)
    requires k <= |live|
    ensures Roots(live, k)[x] == if 0 <= x < k && live[x] then 1 else 0
    decreases k
  {
    if k > 0 { RootsAre(live, k - 1, x); }
  }

  lemma {:induction false} RootsWithout(live: seq<bool>, k: nat, x: nat)
    requires k <= |live| && x < |live| && live[x]
    ensures Roots(live, k) == Roots(live[x := false], k) + (if x < k then multiset{x} else multiset{})
    decreases k
  {
    if k > 0 { RootsWithout(live, k - 1, x); }
  }

  lemma {:induction false} RootsPrefix(live: seq<bool>, live': seq<bool>, k: nat)
    requires k <= |live| && k <= |live'| && forall i :: 0 <= i < k ==> live[i] == live'[i]
    ensures Roots(live, k) == Roots(live', k)
    decreases k
  {
    if k > 0 { RootsPrefix(live, live', k - 1); }
  }

  /** The heap holds exactly the nodes marked in live. */
  ghost predicate RootHeap(h: seq<int>, w: seq<int>, n: nat, live: seq<bool>) {
    |live| <= |w| && Heap(h, w, n, Roots(live, |live|))
  }

  /** n1 is a lightest of the marked nodes. */
  ghost predicate LightestRoot(w: seq<int>, live: seq<bool>, n1: int) {
    |live| <= |w| && 0 <= n1 < |live| && live[n1] && forall r :: 0 <= r < |live| && live[r] ==> w[n1] <= w[r]
  }

  lemma LightestMarked(w: seq<int>, live: seq<bool>, n1: int)
    requires |live| <= |w| && LightestOf(w, Roots(live, |live|), n1)
    ensures LightestRoot(w, live, n1)
  {
    RootsAre(live, |live|, n1);
    forall r | 0 <= r < |live| && live[r] ensures w[n1] <= w[r] {
      RootsAre(live, |live|, r);
    }
  }

  lemma EmptyHeap(h: seq<int>, w: seq<int>)
    requires |h| > 0 && |w| > 0 && h[0] == 0
    ensures RootHeap(h, w, 0, [false])
  {
    assert h[1..1] == [];
    assert Roots([false], 1) == Roots([false], 0) == multiset{};
  }

  method PopRoot(heap: array<int>, weight: array<int>, nHeap: nat, ghost live: seq<bool>) returns (n1: nat)
    requires heap != weight && 1 <= nHeap && RootHeap(heap[..], weight[..], nHeap, live)
    modifies heap
    ensures n1 < |live| <= weight.Length && LightestRoot(weight[..], live, n1)
    ensures RootHeap(heap[..], weight[..], nHeap - 1, live[n1 := false])
  {
    hide Heap;
    hide Roots;
    hide Without;
    hide LightestOf;
    hide LightestRoot;
    var first := PopLightest(heap, weight, nHeap, Roots(live, |live|));
    LightestMarked(weight[..], live, first);
    LightestBounds(weight[..], live, first);
    n1 := first;
    WithoutRoot(live, n1);
  }

  lemma LightestBounds(w: seq<int>, live: seq<bool>, n1: int)
    requires LightestRoot(w, live, n1)
    ensures 0 <= n1 < |live| && live[n1]
  {
  }

  lemma WithoutRoot(live: seq<bool>, x: nat)
    requires x < |live| && live[x]
    ensures Without(Roots(live, |live|), x) == Roots(live[x := false], |live|)
  {
    RootsWithout(live, |live|, x);
  }

  lemma WithRoot(live: seq<bool>)
    ensures With(Roots(live, |live|), |live|) == Roots(live + [true], |live| + 1)
  {
    RootsPrefix(live, live + [true], |live|);
  }

  /** The next node number joins the heap. */
  method PushRoot(heap: array<int>, weight: array<int>, nHeap: nat, x: nat, ghost live: seq<bool>)
    requires heap != weight && nHeap + 1 < heap.Length && RootHeap(heap[..], weight[..], nHeap, live)
    requires x == |live| < weight.Length && weight[0] < weight[x]
    modifies heap
    ensures RootHeap(heap[..], weight[..], nHeap + 1, live + [true])
  {
    hide Heap;
    hide Roots;
    hide With;
    Push(heap, weight, nHeap, x, Roots(live, |live|));
    WithRoot(live);
  }

  /** Writing the weight of a node not yet in the heap. */
  lemma HeapFrame(h: seq<int>, w: seq<int>, k: nat, live: seq<bool>, z: int)
    requires RootHeap(h, w, k, live) && 0 < |live| < |w|
    ensures RootHeap(h, w[|live| := z], k, live)
  {
    var n := |live|;
    var w' := w[n := z];
    hide Roots;
    forall j {:trigger Key(h, w', j)} | 0 <= j <= k ensures Key(h, w', j) == Key(h, w, j) {
      if j > 0 {
        assert h[1..k + 1][j - 1] == h[j];
        assert h[j] in Roots(live, n);
        RootsAre(live, n, h[j]);
      }
    }
  }

  /** A heap of one node: there is one root. */
  lemma OneRoot(h: seq<int>, w: seq<int>, live: seq<bool>)
    requires RootHeap(h, w, 1, live)
    ensures 1 < |h| && 0 <= h[1] < |live| && live[h[1]] && forall r :: 0 <= r < |live| && live[r] ==> r == h[1]
  {
    assert h[1..2] == [h[1]];
    assert h[1] in Nodes(h, 1);
    RootsAre(live, |live|, h[1]);
    forall r | 0 <= r < |live| && live[r] ensures r == h[1] {
      RootsAre(live, |live|, r);
      assert r in Nodes(h, 1);
    }
  }
}
