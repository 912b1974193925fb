/** What fallbackSort keeps between and within its passes, and why each pass doubles the depth. */
module FallbackOrder {
  import opened Rotations
  import opened RangePermutation
  import opened Counting
  import opened BucketBits
  import opened FallbackQSort

  /** The first |b| entries of f list the rotations of b. */
  ghost predicate Perm(b: seq<int>, f: seq<int>) {
    |b| <= |f| && (forall p :: 0 <= p < |b| ==> 0 <= f[p] < |b|) &&
    forall p, q :: 0 <= p < q < |b| ==> f[p] != f[q]
  }

  /** The comparison of the rotations listed at p and q, to depth k. */
  ghost function At(b: seq<int>, f: seq<int>, p: int, q: int, k: nat): (c: int)
    requires Perm(b, f) && 0 <= p < |b| && 0 <= q < |b|
    ensures -1 <= c <= 1
  {
    Cmp(b, f[p], f[q], k)
  }

  /** The first m entries are in order to depth k. */
  ghost predicate Sorted(b: seq<int>, f: seq<int>, k: nat, m: int)
    requires Perm(b, f)
  {
    m <= |b| && forall p, q :: 0 <= p < q < m ==> At(b, f, p, q, k) <= 0
  }

  /** Entry a starts a bucket of rotations equal to depth k. */
  ghost predicate Head(b: seq<int>, f: seq<int>, k: nat, a: int)
    requires Perm(b, f) && 0 <= a < |b|
  {
    a == 0 || At(b, f, a - 1, a, k) < 0
  }

  /** The header bits from `from` up to `to` are exactly the bucket starts at depth k. */
  ghost predicate Heads(b: seq<int>, f: seq<int>, t: seq<bv32>, k: nat, from: int, to: int)
    requires Perm(b, f)
  {
    0 <= from && to <= |b| <= 32 * |t| &&
    forall a :: from <= a < to ==> (IsSet(t, a) <==> Head(b, f, k, a))
  }

  /** The bits that stop the scans: one set at |b|, one clear after it. */
  ghost predicate Sentinels(t: seq<bv32>, n: nat) {
    n + 1 < 32 * |t| && IsSet(t, n) && !IsSet(t, n + 1)
  }

  /** Between passes: in order to depth k, with the bits at the bucket starts. */
  ghost predicate Bucketed(b: seq<int>, f: seq<int>, t: seq<bv32>, k: nat) {
    Perm(b, f) && Sorted(b, f, k, |b|) && Heads(b, f, t, k, 0, |b|) && Sentinels(t, |b|)
  }

  lemma AtTransitive(b: seq<int>, f: seq<int>, p: int, q: int, r: int, k: nat)
    requires Perm(b, f) && 0 <= p < |b| && 0 <= q < |b| && 0 <= r < |b|
    requires At(b, f, p, q, k) <= 0 && At(b, f, q, r, k) <= 0
    ensures At(b, f, p, r, k) <= 0
    ensures At(b, f, p, q, k) < 0 || At(b, f, q, r, k) < 0 ==> At(b, f, p, r, k) < 0
  {
    CmpTransitive(b, f[p], f[q], f[r], k);
  }

  /* ---------- the classes of a pass ---------- */

  /** The bucket start that the class-assigning loop has in j at entry i. */
  ghost function HeadOf(t: seq<bv32>, i: nat): (j: nat)
    requires i < 32 * |t|
    ensures j <= i
  {
    if i == 0 || IsSet(t, i) then i else HeadOf(t, i - 1)
  }

  lemma {:induction false} HeadOfOrder(b: seq<int>, f: seq<int>, t: seq<bv32>, k: nat, p: nat, q: nat)
    requires Bucketed(b, f, t, k) && p <= q < |b|
    ensures HeadOf(t, p) <= HeadOf(t, q)
    ensures HeadOf(t, p) == HeadOf(t, q) <==> At(b, f, p, q, k) >= 0
    decreases q
  {
    hide IsSet;
    if p == q {
      CmpSelf(b, f[p], k);
    } else {
      HeadOfOrder(b, f, t, k, p, q - 1);
      assert IsSet(t, q) <==> Head(b, f, k, q);
      assert At(b, f, p, q, k) <= 0 && At(b, f, q - 1, q, k) <= 0;
      if p < q - 1 { assert At(b, f, p, q - 1, k) <= 0; } else { CmpSelf(b, f[p], k); }
      AtTransitive(b, f, p, q - 1, q, k);
      if IsSet(t, q) {
        assert HeadOf(t, q) == q;
      } else {
        CmpAntisymmetric(b, f[q - 1], f[q], k);
        CmpAntisymmetric(b, f[p], f[q], k);
        CmpAntisymmetric(b, f[p], f[q - 1], k);
        if At(b, f, p, q - 1, k) >= 0 { CmpTransitive(b, f[q], f[q - 1], f[p], k); }
        if At(b, f, p, q, k) >= 0 { CmpTransitive(b, f[q - 1], f[q], f[p], k); }
      }
    }
  }

  /** The index h places before x. */
  ghost function Back(n: nat, x: int, h: nat): (y: int)
    requires 0 <= x < n && h <= n
    ensures 0 <= y < n && Advance(n, y, h) == x
  {
    if x - h < 0 then x - h + n else x - h
  }

  /** The classes of the first m rotations listed: each is the bucket start of what follows h on. */
  ghost predicate Assigned(b: seq<int>, f: seq<int>, t: seq<bv32>, ec: seq<int>, h: nat, m: int) {
    Perm(b, f) && h <= |b| <= |ec| && m <= |b| <= 32 * |t| &&
    forall p :: 0 <= p < m ==> ec[Back(|b|, f[p], h)] == HeadOf(t, p)
  }

  /** Classes compare as the rotations do h places on. */
  ghost predicate Classes(b: seq<int>, ec: seq<int>, h: nat) {
    h <= |b| <= |ec| && forall x, y :: 0 <= x < |b| && 0 <= y < |b| ==>
      (ec[x] <= ec[y] <==> Cmp(b, Advance(|b|, x, h), Advance(|b|, y, h), h) <= 0)
  }

  lemma AssignedAre(b: seq<int>, f: seq<int>, t: seq<bv32>, ec: seq<int>, h: nat)
    requires Bucketed(b, f, t, h) && Assigned(b, f, t, ec, h, |b|)
    ensures Classes(b, ec, h)
  {
    forall x, y | 0 <= x < |b| && 0 <= y < |b|
      ensures ec[x] <= ec[y] <==> Cmp(b, Advance(|b|, x, h), Advance(|b|, y, h), h) <= 0
    {
      AssignedPair(b, f, t, ec, h, x, y);
    }
  }

  lemma AssignedPair(b: seq<int>, f: seq<int>, t: seq<bv32>, ec: seq<int>, h: nat, x: int, y: int)
    requires Bucketed(b, f, t, h) && Assigned(b, f, t, ec, h, |b|) && 0 <= x < |b| && 0 <= y < |b|
    ensures ec[x] <= ec[y] <==> Cmp(b, Advance(|b|, x, h), Advance(|b|, y, h), h) <= 0
  {
    var n := |b|;
    var p := PermHits(b, f, Advance(n, x, h));
    var q := PermHits(b, f, Advance(n, y, h));
    assert Back(n, f[p], h) == x && Back(n, f[q], h) == y;
    if p <= q {
      HeadOfOrder(b, f, t, h, p, q);
      if p == q { CmpSelf(b, f[p], h); } else { assert At(b, f, p, q, h) <= 0; }
    } else {
      HeadOfOrder(b, f, t, h, q, p);
      CmpAntisymmetric(b, f[p], f[q], h);
      assert At(b, f, q, p, h) <= 0;
    }
  }

  lemma PermHits(b: seq<int>, f: seq<int>, x: int) returns (p: nat)
    requires Perm(b, f) && 0 <= x < |b|
    ensures p < |b| && f[p] == x
  {
    p := PermutationHits(f[..|b|], |b|, x);
  }

  /** Writing the class for the next entry disturbs none already written. */
  lemma AssignStep(b: seq<int>, f: seq<int>, t: seq<bv32>, ec: seq<int>, h: nat, i: int)
    requires Assigned(b, f, t, ec, h, i) && i < |b| && 0 <= i
    ensures Assigned(b, f, t, ec[Back(|b|, f[i], h) := HeadOf(t, i)], h, i + 1)
  {
    var n := |b|;
    var e := ec[Back(n, f[i], h) := HeadOf(t, i)];
    forall p | 0 <= p < i + 1 ensures e[Back(n, f[p], h)] == HeadOf(t, p) {
      if p < i {
        assert f[p] != f[i];
        assert Advance(n, Back(n, f[p], h), h) == f[p];
      }
    }
  }

  /* ---------- refining the buckets of a pass ---------- */

  /** During a pass: everything is in order to depth h, the first fr entries to depth 2h, with the
      bits to match, and entry fr starts a bucket. */
  ghost predicate Refined(b: seq<int>, f: seq<int>, t: seq<bv32>, h: nat, fr: int) {
    Perm(b, f) && 0 <= fr <= |b| && Sorted(b, f, h, |b|) && Sorted(b, f, 2 * h, fr) &&
    Heads(b, f, t, 2 * h, 0, fr) && Heads(b, f, t, h, fr, |b|) && Sentinels(t, |b|) && IsSet(t, fr)
  }

  lemma RefineStart(b: seq<int>, f: seq<int>, t: seq<bv32>, h: nat)
    requires Bucketed(b, f, t, h) && |b| > 0
    ensures Refined(b, f, t, h, 0)
  {
    assert IsSet(t, 0) <==> Head(b, f, h, 0);
  }

  lemma RefineEnd(b: seq<int>, f: seq<int>, t: seq<bv32>, h: nat)
    requires Refined(b, f, t, h, |b|)
    ensures Bucketed(b, f, t, 2 * h)
  {
  }

  /** Entry q is strictly greater, to depth h, than every entry before it. */
  lemma HeadAbove(b: seq<int>, f: seq<int>, h: nat, p: int, q: int)
    requires Perm(b, f) && Sorted(b, f, h, |b|) && 0 <= p < q < |b| && Head(b, f, h, q)
    ensures At(b, f, p, q, h) < 0
  {
    if p < q - 1 {
      assert At(b, f, p, q - 1, h) <= 0;
      AtTransitive(b, f, p, q - 1, q, h);
    }
  }

  lemma StrictDeeper(b: seq<int>, f: seq<int>, p: int, q: int, h: nat, k: nat)
    requires Perm(b, f) && 0 <= p < |b| && 0 <= q < |b| && At(b, f, p, q, h) < 0 && h <= k
    ensures At(b, f, p, q, k) < 0
  {
    CmpPrefix(b, f[p], f[q], h, k);
  }

  /** Singleton buckets fr..l-1 need no work: the frontier moves on to l. */
  lemma SkipSingles(b: seq<int>, f: seq<int>, t: seq<bv32>, h: nat, fr: int, l: int)
    requires Refined(b, f, t, h, fr) && fr <= l <= |b|
    requires forall a :: fr <= a <= l ==> IsSet(t, a)
    ensures Refined(b, f, t, h, l)
    ensures forall a :: fr <= a < l ==> Head(b, f, h, a)
  {
    hide IsSet;
    forall a | fr <= a < l ensures Head(b, f, h, a) && Head(b, f, 2 * h, a) {
      assert IsSet(t, a) <==> Head(b, f, h, a);
      if a > 0 { StrictDeeper(b, f, a - 1, a, h, 2 * h); }
    }
    forall p, q | 0 <= p < q < l ensures At(b, f, p, q, 2 * h) <= 0 {
      if q >= fr {
        HeadAbove(b, f, h, p, q);
        StrictDeeper(b, f, p, q, h, 2 * h);
      }
    }
  }

  /** A bucket l..r: a head, then entries that are none, then a head or the end. */
  ghost predicate Bucket(t: seq<bv32>, l: int, r: int) {
    0 <= l <= r && r + 1 < 32 * |t| && IsSet(t, l) && IsSet(t, r + 1) &&
    forall a :: l < a <= r ==> !IsSet(t, a)
  }

  lemma EqualNext(b: seq<int>, f: seq<int>, p: int, q: int, r: int, k: nat)
    requires Perm(b, f) && 0 <= p < |b| && 0 <= q < |b| && 0 <= r < |b|
    requires At(b, f, p, q, k) == 0 && At(b, f, q, r, k) == 0
    ensures At(b, f, p, r, k) == 0
  {
    hide Cmp;
    AtTransitive(b, f, p, q, r, k);
    CmpAntisymmetric(b, f[p], f[q], k);
    CmpAntisymmetric(b, f[q], f[r], k);
    CmpAntisymmetric(b, f[p], f[r], k);
    AtTransitive(b, f, r, q, p, k);
  }

  lemma {:induction false} BucketEqualFrom(b: seq<int>, f: seq<int>, t: seq<bv32>, h: nat, l: int, r: int, q: int)
    requires Refined(b, f, t, h, l) && Bucket(t, l, r) && l <= q <= r < |b|
    ensures At(b, f, l, q, h) == 0
    decreases q
  {
    hide IsSet;
    hide Cmp;
    if q == l {
      CmpSelf(b, f[l], h);
    } else {
      BucketEqualFrom(b, f, t, h, l, r, q - 1);
      assert IsSet(t, q) <==> Head(b, f, h, q);
      assert At(b, f, q - 1, q, h) <= 0;
      EqualNext(b, f, l, q - 1, q, h);
    }
  }

  /** Rotations in one bucket agree to depth h. */
  lemma BucketEqual(b: seq<int>, f: seq<int>, t: seq<bv32>, h: nat, l: int, r: int, p: int, q: int)
    requires Refined(b, f, t, h, l) && Bucket(t, l, r) && l <= p <= r < |b| && l <= q <= r
    ensures At(b, f, p, q, h) == 0
  {
    BucketEqualFrom(b, f, t, h, l, r, p);
    BucketEqualFrom(b, f, t, h, l, r, q);
    CmpAntisymmetric(b, f[l], f[p], h);
    CmpAntisymmetric(b, f[l], f[q], h);
    CmpAntisymmetric(b, f[p], f[q], h);
    AtTransitive(b, f, p, l, q, h);
    AtTransitive(b, f, q, l, p, h);
  }

  /** The bits after a sorted bucket has been scanned for class changes, up to entry m. */
  ghost predicate Marked(t': seq<bv32>, t: seq<bv32>, f: seq<int>, ec: seq<int>, l: int, r: int, m: int) {
    |t'| == |t| && 0 <= l <= m <= r + 1 <= |f| && r + 1 < 32 * |t| &&
    (forall a :: l <= a <= r ==> 0 <= f[a] < |ec|) &&
    (forall a :: 0 <= a < 32 * |t| && !(l <= a < m) ==> (IsSet(t', a) <==> IsSet(t, a))) &&
    (forall a :: l <= a < m ==> (IsSet(t', a) <==> a == l || ec[f[a - 1]] != ec[f[a]]))
  }

  /** A bucket being replaced: f before, f' after sorting by class, t and t' the bits. */
  ghost predicate Sorts(b: seq<int>, f: seq<int>, f': seq<int>, t: seq<bv32>, ec: seq<int>, h: nat, l: int, r: int) {
    Refined(b, f, t, h, l) && Bucket(t, l, r) && r < |b| && Classes(b, ec, h) &&
    RangePerm(f', f, l, r) && SortedByClass(f', ec, l, r)
  }

  lemma PermKept(b: seq<int>, f: seq<int>, f': seq<int>, l: int, r: int)
    requires Perm(b, f) && RangePerm(f', f, l, r) && r < |b|
    ensures Perm(b, f')
  {
    var n := |b|;
    var g, g' := f[..n], f'[..n];
    assert g[l..r + 1] == f[l..r + 1] && g'[l..r + 1] == f'[l..r + 1];
    assert RangePerm(g', g, l, r);
    assert Distinct(g);
    PermDistinct(g', g, l, r);
    forall p | 0 <= p < n ensures 0 <= f'[p] < n {
      if l <= p <= r {
        var q := PermSource(f', f, l, r, p);
      }
    }
    forall p, q | 0 <= p < q < n ensures f'[p] != f'[q] {
      assert g'[p] != g'[q];
    }
  }

  /** Sorting a bucket by class sorts it to depth 2h, strictly where the class changes. */
  lemma ClassDeepens(b: seq<int>, f: seq<int>, f': seq<int>, t: seq<bv32>, ec: seq<int>, h: nat, l: int, r: int, p: int,
      q: int)
    requires Sorts(b, f, f', t, ec, h, l, r) && Perm(b, f') && l <= p < q <= r
    ensures At(b, f', p, q, h) == 0 && At(b, f', p, q, 2 * h) <= 0
    ensures At(b, f', p, q, 2 * h) < 0 <==> ec[f'[p]] != ec[f'[q]]
  {
    hide IsSet;
    var p' := PermSource(f', f, l, r, p);
    var q' := PermSource(f', f, l, r, q);
    BucketEqual(b, f, t, h, l, r, p', q');
    assert ClassOrder(ec)(f'[p], f'[q]);
    var x, y := f'[p], f'[q];
    CmpSplit(b, x, y, h, h);
    assert ec[y] <= ec[x] <==> Cmp(b, Advance(|b|, y, h), Advance(|b|, x, h), h) <= 0;
    CmpAntisymmetric(b, Advance(|b|, y, h), Advance(|b|, x, h), h);
  }

  /** What comes before a bucket stays before it, strictly; what comes after stays after it. */
  lemma AroundBucket(b: seq<int>, f: seq<int>, f': seq<int>, t: seq<bv32>, ec: seq<int>, h: nat, l: int, r: int, p: int,
      q: int)
    requires Sorts(b, f, f', t, ec, h, l, r) && Perm(b, f') && 0 <= p < q < |b|
    requires (p < l <= q <= r) || (l <= p <= r < q)
    ensures At(b, f', p, q, h) < 0
  {
    hide IsSet;
    if p < l {
      var q' := PermSource(f', f, l, r, q);
      assert IsSet(t, l) <==> Head(b, f, h, l);
      HeadAbove(b, f, h, p, l);
      BucketEqual(b, f, t, h, l, r, l, q');
      AtTransitive(b, f, p, l, q', h);
    } else {
      var p' := PermSource(f', f, l, r, p);
      assert IsSet(t, r + 1) <==> Head(b, f, h, r + 1);
      HeadAbove(b, f, h, p', r + 1);
      if r + 1 < q { assert At(b, f, r + 1, q, h) <= 0; } else { CmpSelf(b, f[q], h); }
      AtTransitive(b, f, p', r + 1, q, h);
    }
  }

  lemma SortedShallow(b: seq<int>, f: seq<int>, f': seq<int>, t: seq<bv32>, ec: seq<int>, h: nat, l: int, r: int)
    requires Sorts(b, f, f', t, ec, h, l, r) && Perm(b, f')
    ensures Sorted(b, f', h, |b|)
  {
    hide IsSet;
    forall p, q | 0 <= p < q < |b| ensures At(b, f', p, q, h) <= 0 {
      if l <= p && q <= r {
        ClassDeepens(b, f, f', t, ec, h, l, r, p, q);
      } else if (p < l <= q <= r) || (l <= p <= r < q) {
        AroundBucket(b, f, f', t, ec, h, l, r, p, q);
      } else {
        assert f'[p] == f[p] && f'[q] == f[q];
        assert At(b, f, p, q, h) <= 0;
      }
    }
  }

  lemma SortedDeep(b: seq<int>, f: seq<int>, f': seq<int>, t: seq<bv32>, ec: seq<int>, h: nat, l: int, r: int)
    requires Sorts(b, f, f', t, ec, h, l, r) && Perm(b, f')
    ensures Sorted(b, f', 2 * h, r + 1)
  {
    hide IsSet;
    forall p, q | 0 <= p < q < r + 1 ensures At(b, f', p, q, 2 * h) <= 0 {
      if l <= p {
        ClassDeepens(b, f, f', t, ec, h, l, r, p, q);
      } else if l <= q {
        AroundBucket(b, f, f', t, ec, h, l, r, p, q);
        StrictDeeper(b, f', p, q, h, 2 * h);
      } else {
        assert f'[p] == f[p] && f'[q] == f[q];
        assert At(b, f, p, q, 2 * h) <= 0;
      }
    }
  }

  lemma HeadsDeep(b: seq<int>, f: seq<int>, f': seq<int>, t: seq<bv32>, t': seq<bv32>, ec: seq<int>, h: nat, l: int,
      r: int)
    requires Sorts(b, f, f', t, ec, h, l, r) && Perm(b, f') && Marked(t', t, f', ec, l, r, r + 1)
    ensures Heads(b, f', t', 2 * h, 0, r + 1)
  {
    hide IsSet;
    forall a | 0 <= a < r + 1 ensures IsSet(t', a) <==> Head(b, f', 2 * h, a) {
      if a < l {
        assert IsSet(t, a) <==> Head(b, f, 2 * h, a);
      } else if a == l {
        if l > 0 {
          AroundBucket(b, f, f', t, ec, h, l, r, l - 1, l);
          StrictDeeper(b, f', l - 1, l, h, 2 * h);
        }
      } else {
        ClassDeepens(b, f, f', t, ec, h, l, r, a - 1, a);
      }
    }
  }

  lemma HeadsShallow(b: seq<int>, f: seq<int>, f': seq<int>, t: seq<bv32>, t': seq<bv32>, ec: seq<int>, h: nat, l: int,
      r: int)
    requires Sorts(b, f, f', t, ec, h, l, r) && Perm(b, f') && Marked(t', t, f', ec, l, r, r + 1)
    ensures Heads(b, f', t', h, r + 1, |b|)
  {
    hide IsSet;
    forall a | r + 1 <= a < |b| ensures IsSet(t', a) <==> Head(b, f', h, a) {
      assert IsSet(t', a) <==> IsSet(t, a);
      if a == r + 1 {
        AroundBucket(b, f, f', t, ec, h, l, r, r, a);
      } else {
        assert IsSet(t, a) <==> Head(b, f, h, a);
      }
    }
  }

  /** Sorting and marking a bucket moves the frontier past it. */
  lemma BucketDone(b: seq<int>, f: seq<int>, f': seq<int>, t: seq<bv32>, t': seq<bv32>, ec: seq<int>, h: nat, l: int,
      r: int)
    requires Sorts(b, f, f', t, ec, h, l, r) && Marked(t', t, f', ec, l, r, r + 1)
    ensures Refined(b, f', t', h, r + 1)
  {
    hide IsSet;
    hide RangePerm;
    hide SortedByClass;
    hide Classes;
    PermKept(b, f, f', l, r);
    SortedShallow(b, f, f', t, ec, h, l, r);
    SortedDeep(b, f, f', t, ec, h, l, r);
    HeadsDeep(b, f, f', t, t', ec, h, l, r);
    HeadsShallow(b, f, f', t, t', ec, h, l, r);
    assert IsSet(t', r + 1) <==> IsSet(t, r + 1);
    assert IsSet(t', |b|) <==> IsSet(t, |b|);
  }

  /* ---------- the end ---------- */

  /** In order to depth |b| or more, or with every bucket a singleton: the rotations are sorted. */
  lemma BucketedIsSorted(b: seq<int>, f: seq<int>, t: seq<bv32>, k: nat, h: nat)
    requires Bucketed(b, f, t, k) && h <= |b|
    requires k >= |b| || (h <= k && forall a :: 0 <= a < |b| ==> Head(b, f, h, a))
    ensures SortedRotations(b, f[..|b|])
  {
    hide IsSet;
    var p := f[..|b|];
    forall i, j | 0 <= i < j < |b| ensures CmpRotations(b, p[i], p[j]) <= 0 {
      assert At(b, f, i, j, k) <= 0;
      if k >= |b| {
        CmpPrefix(b, f[i], f[j], |b|, k);
      } else {
        SortedAtDepth(b, f, k, h);
        HeadAbove(b, f, h, i, j);
        StrictDeeper(b, f, i, j, h, |b|);
      }
    }
  }

  lemma SortedAtDepth(b: seq<int>, f: seq<int>, k: nat, h: nat)
    requires Perm(b, f) && Sorted(b, f, k, |b|) && h <= k
    ensures Sorted(b, f, h, |b|)
  {
    forall p, q | 0 <= p < q < |b| ensures At(b, f, p, q, h) <= 0 {
      assert At(b, f, p, q, k) <= 0;
      CmpPrefix(b, f[p], f[q], h, k);
    }
  }
}
