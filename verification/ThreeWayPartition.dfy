/** The in-place three-way partition that fallbackQSort3 and mainQSort3 share. Entries of a are
    compared by keys[entry + off]: the class of a rotation (off = 0), or the block byte at the
    current depth (off = d). Entries equal to med are gathered at both ends while scanning and
    swapped into the middle afterwards.

    Method bodies hide the definitions of the predicates and rest on the step lemmas beside them. */
module ThreeWayPartition {
  import opened RangePermutation

  /** One partition: the entries as they were, the keys, the stretch lo..hi and the pivot. */
  datatype Job = Job(was: seq<int>, ks: seq<int>, off: int, lo: int, hi: int, med: int)

  /** Every entry at lo..hi has a key. */
  ghost predicate Keyed(s: seq<int>, nk: int, off: int, lo: int, hi: int) {
    0 <= lo <= hi + 1 <= |s| && forall p :: lo <= p <= hi ==> 0 <= s[p] + off < nk
  }

  lemma KeyedPerm(s: seq<int>, t: seq<int>, nk: int, off: int, lo: int, hi: int)
    requires RangePerm(s, t, lo, hi) && Keyed(t, nk, off, lo, hi)
    ensures Keyed(s, nk, off, lo, hi)
  {
    forall p | lo <= p <= hi ensures 0 <= s[p] + off < nk {
      var q := PermSource(s, t, lo, hi, p);
    }
  }

  /** Only lo..hi has been rearranged. */
  ghost predicate Work(j: Job, s: seq<int>) {
    RangePerm(s, j.was, j.lo, j.hi) && Keyed(s, |j.ks|, j.off, j.lo, j.hi)
  }

  /** The scanning state: equal to med below ltLo and above gtHi, less in ltLo..unLo-1,
      greater in unHi+1..gtHi, not yet looked at in unLo..unHi. */
  ghost predicate Scanned(j: Job, s: seq<int>, ltLo: int, unLo: int, unHi: int, gtHi: int) {
    Work(j, s) && j.lo <= ltLo <= unLo <= unHi + 1 && unHi <= gtHi <= j.hi &&
    (forall p :: j.lo <= p < ltLo ==> j.ks[s[p] + j.off] == j.med) &&
    (forall p :: ltLo <= p < unLo ==> j.ks[s[p] + j.off] < j.med) &&
    (forall p :: unHi < p <= gtHi ==> j.ks[s[p] + j.off] > j.med) &&
    (forall p :: gtHi < p <= j.hi ==> j.ks[s[p] + j.off] == j.med)
  }

  /** The finished partition: less up to n, equal in n+1..m-1, greater from m. */
  ghost predicate Partitioned(j: Job, s: seq<int>, n: int, m: int) {
    Work(j, s) && j.lo <= n + 1 <= m <= j.hi + 1 &&
    (forall p :: j.lo <= p <= n ==> j.ks[s[p] + j.off] < j.med) &&
    (forall p :: n < p < m ==> j.ks[s[p] + j.off] == j.med) &&
    (forall p :: m <= p <= j.hi ==> j.ks[s[p] + j.off] > j.med)
  }

  function Swapped(s: seq<int>, i: int, k: int): (t: seq<int>)
    requires 0 <= i < |s| && 0 <= k < |s|
  {
    s[i := s[k]][k := s[i]]
  }

  lemma ScanBounds(j: Job, s: seq<int>, ltLo: int, unLo: int, unHi: int, gtHi: int)
    requires Scanned(j, s, ltLo, unLo, unHi, gtHi)
    ensures 0 <= j.lo <= ltLo <= unLo <= unHi + 1 <= gtHi + 1 <= j.hi + 1 <= |s|
    ensures unLo <= unHi ==> 0 <= s[unLo] + j.off < |j.ks| && 0 <= s[unHi] + j.off < |j.ks|
  {
  }

  lemma WorkSwap(j: Job, s: seq<int>, i: int, k: int)
    requires Work(j, s) && j.lo <= i <= j.hi && j.lo <= k <= j.hi
    ensures Work(j, Swapped(s, i, k))
  {
    hide Keyed;
    hide Work;
    assert RangePerm(s, j.was, j.lo, j.hi) && Keyed(s, |j.ks|, j.off, j.lo, j.hi) by { WorkParts(j, s); }
    PermSwap(s, i, k, j.lo, j.hi);
    PermTransitive(Swapped(s, i, k), s, j.was, j.lo, j.hi);
    KeyedPerm(Swapped(s, i, k), s, |j.ks|, j.off, j.lo, j.hi);
    WorkIntro(j, Swapped(s, i, k));
  }

  lemma WorkParts(j: Job, s: seq<int>)
    requires Work(j, s)
    ensures RangePerm(s, j.was, j.lo, j.hi) && Keyed(s, |j.ks|, j.off, j.lo, j.hi)
  {
  }

  lemma WorkIntro(j: Job, s: seq<int>)
    requires RangePerm(s, j.was, j.lo, j.hi) && Keyed(s, |j.ks|, j.off, j.lo, j.hi)
    ensures Work(j, s)
  {
  }

  lemma SkipUp(j: Job, s: seq<int>, ltLo: int, unLo: int, unHi: int, gtHi: int)
    requires Scanned(j, s, ltLo, unLo, unHi, gtHi) && unLo <= unHi && j.ks[s[unLo] + j.off] < j.med
    ensures Scanned(j, s, ltLo, unLo + 1, unHi, gtHi)
  {
  }

  lemma EqualUp(j: Job, s: seq<int>, ltLo: int, unLo: int, unHi: int, gtHi: int)
    requires Scanned(j, s, ltLo, unLo, unHi, gtHi) && unLo <= unHi && j.ks[s[unLo] + j.off] == j.med
    ensures Scanned(j, Swapped(s, unLo, ltLo), ltLo + 1, unLo + 1, unHi, gtHi)
  {
    hide RangePerm;
    WorkSwap(j, s, unLo, ltLo);
  }

  lemma SkipDown(j: Job, s: seq<int>, ltLo: int, unLo: int, unHi: int, gtHi: int)
    requires Scanned(j, s, ltLo, unLo, unHi, gtHi) && unLo <= unHi && j.ks[s[unHi] + j.off] > j.med
    ensures Scanned(j, s, ltLo, unLo, unHi - 1, gtHi)
  {
  }

  lemma EqualDown(j: Job, s: seq<int>, ltLo: int, unLo: int, unHi: int, gtHi: int)
    requires Scanned(j, s, ltLo, unLo, unHi, gtHi) && unLo <= unHi && j.ks[s[unHi] + j.off] == j.med
    ensures Scanned(j, Swapped(s, unHi, gtHi), ltLo, unLo, unHi - 1, gtHi - 1)
  {
    hide RangePerm;
    WorkSwap(j, s, unHi, gtHi);
  }

  lemma Exchange(j: Job, s: seq<int>, ltLo: int, unLo: int, unHi: int, gtHi: int)
    requires Scanned(j, s, ltLo, unLo, unHi, gtHi) && unLo <= unHi
    requires j.ks[s[unLo] + j.off] > j.med > j.ks[s[unHi] + j.off]
    ensures unLo < unHi && Scanned(j, Swapped(s, unLo, unHi), ltLo, unLo + 1, unHi - 1, gtHi)
  {
    hide RangePerm;
    WorkSwap(j, s, unLo, unHi);
  }

  method Swap(a: array<int>, i: int, k: int)
    requires 0 <= i < a.Length && 0 <= k < a.Length
    modifies a
    ensures a[..] == Swapped(old(a[..]), i, k)
  {
    var t := a[i];
    a[i] := a[k];
    a[k] := t;
  }

  /** The upward scan: stops at an entry greater than med, or when nothing is left. */
  method ScanUp(a: array<int>, keys: array<int>, off: int, med: int, ghost j: Job,
                lt: int, un: int, unHi: int, ghost gtHi: int) returns (ltLo: int, unLo: int)
    requires a != keys && j.ks == keys[..] && j.off == off && j.med == med
    requires Scanned(j, a[..], lt, un, unHi, gtHi)
    modifies a
    ensures Scanned(j, a[..], ltLo, unLo, unHi, gtHi) && 0 <= unLo
    ensures un <= unLo &&
      (unLo <= unHi ==> unLo < a.Length && 0 <= a[unLo] + off < keys.Length && keys[a[unLo] + off] > med)
  {
    hide *;
    ltLo, unLo := lt, un;
    ScanBounds(j, a[..], ltLo, unLo, unHi, gtHi);
    while unLo <= unHi
      invariant un <= unLo && 0 <= unLo
      invariant Scanned(j, a[..], ltLo, unLo, unHi, gtHi)
    {
      ScanBounds(j, a[..], ltLo, unLo, unHi, gtHi);
      var n := keys[a[unLo] + off] - med;
      if n == 0 {
        EqualUp(j, a[..], ltLo, unLo, unHi, gtHi);
        Swap(a, unLo, ltLo);
        ltLo, unLo := ltLo + 1, unLo + 1;
      } else if n > 0 {
        break;
      } else {
        SkipUp(j, a[..], ltLo, unLo, unHi, gtHi);
        unLo := unLo + 1;
      }
    }
  }

  /** The entry at unLo stopped the upward scan. */
  ghost predicate Stopped(j: Job, s: seq<int>, unLo: int, unHi: int) {
    unLo <= unHi ==> 0 <= unLo < |s| && 0 <= s[unLo] + j.off < |j.ks| && j.ks[s[unLo] + j.off] > j.med
  }

  lemma StoppedDown(j: Job, s: seq<int>, ltLo: int, unLo: int, unHi: int, gtHi: int)
    requires Scanned(j, s, ltLo, unLo, unHi, gtHi) && Stopped(j, s, unLo, unHi) && unLo <= unHi
    ensures Stopped(j, s, unLo, unHi - 1) && Stopped(j, Swapped(s, unHi, gtHi), unLo, unHi - 1)
  {
    hide RangePerm;
  }

  /** The downward scan, its mirror image. */
  method ScanDown(a: array<int>, keys: array<int>, off: int, med: int, ghost j: Job,
                  ghost ltLo: int, unLo: int, un: int, gt: int) returns (unHi: int, gtHi: int)
    requires a != keys && j.ks == keys[..] && j.off == off && j.med == med
    requires Scanned(j, a[..], ltLo, unLo, un, gt) && Stopped(j, a[..], unLo, un)
    modifies a
    ensures Scanned(j, a[..], ltLo, unLo, unHi, gtHi) && Stopped(j, a[..], unLo, unHi) && unHi <= un
    ensures unLo <= unHi ==> 0 <= unHi < a.Length && 0 <= a[unHi] + off < keys.Length && keys[a[unHi] + off] < med
  {
    hide *;
    unHi, gtHi := un, gt;
    ScanBounds(j, a[..], ltLo, unLo, unHi, gtHi);
    while unLo <= unHi
      invariant unHi <= un
      invariant Scanned(j, a[..], ltLo, unLo, unHi, gtHi) && Stopped(j, a[..], unLo, unHi)
    {
      ScanBounds(j, a[..], ltLo, unLo, unHi, gtHi);
      var n := keys[a[unHi] + off] - med;
      if n < 0 {
        break;
      }
      StoppedDown(j, a[..], ltLo, unLo, unHi, gtHi);
      if n == 0 {
        EqualDown(j, a[..], ltLo, unLo, unHi, gtHi);
        Swap(a, unHi, gtHi);
        gtHi, unHi := gtHi - 1, unHi - 1;
      } else {
        SkipDown(j, a[..], ltLo, unLo, unHi, gtHi);
        unHi := unHi - 1;
      }
    }
  }

  lemma ScanStart(s: seq<int>, ks: seq<int>, off: int, lo: int, hi: int, med: int)
    requires Keyed(s, |ks|, off, lo, hi) && lo <= hi
    ensures Scanned(Job(s, ks, off, lo, hi, med), s, lo, lo, hi, hi)
  {
  }

  /** The scanning loop. */
  method Scan(a: array<int>, keys: array<int>, off: int, lo: int, hi: int, med: int)
    returns (ltLo: int, unLo: int, unHi: int, gtHi: int)
    requires a != keys && lo <= hi && Keyed(a[..], keys.Length, off, lo, hi)
    modifies a
    ensures Scanned(Job(old(a[..]), keys[..], off, lo, hi, med), a[..], ltLo, unLo, unHi, gtHi)
    ensures unLo == unHi + 1
  {
    hide *;
    ltLo, unLo, unHi, gtHi := lo, lo, hi, hi;
    ghost var j := Job(a[..], keys[..], off, lo, hi, med);
    ScanStart(a[..], keys[..], off, lo, hi, med);
    while true
      invariant Scanned(j, a[..], ltLo, unLo, unHi, gtHi)
      decreases unHi - unLo + 1
    {
      ltLo, unLo := ScanUp(a, keys, off, med, j, ltLo, unLo, unHi, gtHi);
      StoppedIntro(j, a[..], unLo, unHi);
      unHi, gtHi := ScanDown(a, keys, off, med, j, ltLo, unLo, unHi, gtHi);
      ScanBounds(j, a[..], ltLo, unLo, unHi, gtHi);
      if unLo > unHi {
        break;
      }
      StoppedElim(j, a[..], unLo, unHi);
      Exchange(j, a[..], ltLo, unLo, unHi, gtHi);
      Swap(a, unLo, unHi);
      unLo, unHi := unLo + 1, unHi - 1;
    }
  }

  lemma StoppedIntro(j: Job, s: seq<int>, unLo: int, unHi: int)
    requires unLo <= unHi ==> 0 <= unLo < |s| && 0 <= s[unLo] + j.off < |j.ks| && j.ks[s[unLo] + j.off] > j.med
    ensures Stopped(j, s, unLo, unHi)
  {
  }

  lemma StoppedElim(j: Job, s: seq<int>, unLo: int, unHi: int)
    requires Stopped(j, s, unLo, unHi) && unLo <= unHi
    ensures 0 <= unLo < |s| && 0 <= s[unLo] + j.off < |j.ks| && j.ks[s[unLo] + j.off] > j.med
  {
  }

  /** The blocks of n entries at p1 and at p2 exchanged as far as their first k entries. */
  ghost predicate BlocksSwapped(s: seq<int>, t: seq<int>, p1: int, p2: int, k: int) {
    |s| == |t| && 0 <= k && 0 <= p1 && p1 + k <= p2 && p2 + k <= |s| &&
    (forall p :: p1 <= p < p1 + k ==> s[p] == t[p + (p2 - p1)]) &&
    (forall p :: p2 <= p < p2 + k ==> s[p] == t[p - (p2 - p1)]) &&
    (forall p :: 0 <= p < |s| && !(p1 <= p < p1 + k) && !(p2 <= p < p2 + k) ==> s[p] == t[p])
  }

  lemma BlocksStep(s: seq<int>, t: seq<int>, p1: int, p2: int, k: int)
    requires BlocksSwapped(s, t, p1, p2, k) && p1 + k < p2 && p2 + k < |s|
    ensures BlocksSwapped(Swapped(s, p1 + k, p2 + k), t, p1, p2, k + 1)
  {
  }

  lemma BlocksStart(s: seq<int>, p1: int, p2: int)
    requires 0 <= p1 <= p2 <= |s|
    ensures BlocksSwapped(s, s, p1, p2, 0)
  {
  }

  /** Exchange the n entries from p1 with the n entries from p2. */
  method BlockSwap(a: array<int>, p1: int, p2: int, n: int, ghost j: Job)
    requires j.lo <= p1 && 0 <= n && p1 + n <= p2 && p2 + n <= j.hi + 1 && 0 <= j.lo && j.hi < a.Length
    requires Work(j, a[..])
    modifies a
    ensures Work(j, a[..]) && BlocksSwapped(a[..], old(a[..]), p1, p2, n)
  {
    hide *;
    BlocksStart(a[..], p1, p2);
    var yyp1, yyp2, yyn := p1, p2, n;
    while yyn > 0
      invariant 0 <= yyn <= n && yyp1 == p1 + (n - yyn) && yyp2 == p2 + (n - yyn)
      invariant Work(j, a[..]) && BlocksSwapped(a[..], old(a[..]), p1, p2, n - yyn)
    {
      BlocksStep(a[..], old(a[..]), p1, p2, n - yyn);
      WorkSwap(j, a[..], yyp1, yyp2);
      Swap(a, yyp1, yyp2);
      yyp1, yyp2, yyn := yyp1 + 1, yyp2 + 1, yyn - 1;
    }
  }

  /** After the first exchange the lesser entries come first, then the equal ones. */
  ghost predicate LowerGathered(j: Job, s: seq<int>, ltLo: int, unLo: int, gtHi: int) {
    Work(j, s) && j.lo <= ltLo <= unLo <= gtHi + 1 <= j.hi + 1 &&
    (forall p :: j.lo <= p < j.lo + (unLo - ltLo) ==> j.ks[s[p] + j.off] < j.med) &&
    (forall p :: j.lo + (unLo - ltLo) <= p < unLo ==> j.ks[s[p] + j.off] == j.med) &&
    (forall p :: unLo <= p <= gtHi ==> j.ks[s[p] + j.off] > j.med) &&
    (forall p :: gtHi < p <= j.hi ==> j.ks[s[p] + j.off] == j.med)
  }

  lemma GatherLower(j: Job, s: seq<int>, t: seq<int>, ltLo: int, unLo: int, gtHi: int, n: int)
    requires Scanned(j, t, ltLo, unLo, unLo - 1, gtHi) &&
      n == (if ltLo - j.lo < unLo - ltLo then ltLo - j.lo else unLo - ltLo)
    requires Work(j, s) && BlocksSwapped(s, t, j.lo, unLo - n, n)
    ensures LowerGathered(j, s, ltLo, unLo, gtHi)
  {
    hide RangePerm;
  }

  lemma GatherUpper(j: Job, s: seq<int>, t: seq<int>, ltLo: int, unLo: int, gtHi: int, m: int)
    requires LowerGathered(j, t, ltLo, unLo, gtHi) &&
      m == (if j.hi - gtHi < gtHi - unLo + 1 then j.hi - gtHi else gtHi - unLo + 1)
    requires Work(j, s) && BlocksSwapped(s, t, unLo, j.hi - m + 1, m)
    ensures Partitioned(j, s, j.lo + unLo - ltLo - 1, j.hi - (gtHi - unLo + 1) + 1)
  {
    hide RangePerm;
  }

  /** Move the entries equal to med from both ends into the middle. */
  method GatherEqual(a: array<int>, ghost j: Job, lo: int, hi: int,
                     ltLo: int, unLo: int, unHi: int, gtHi: int) returns (n: int, m: int)
    requires j.lo == lo && j.hi == hi
    requires Scanned(j, a[..], ltLo, unLo, unHi, gtHi) && unLo == unHi + 1
    modifies a
    ensures Partitioned(j, a[..], n, m)
  {
    hide *;
    ScanBounds(j, a[..], ltLo, unLo, unHi, gtHi);
    ScanWork(j, a[..], ltLo, unLo, unHi, gtHi);
    ghost var s := a[..];
    n := if ltLo - lo < unLo - ltLo then ltLo - lo else unLo - ltLo;
    BlockSwap(a, lo, unLo - n, n, j);
    GatherLower(j, a[..], s, ltLo, unLo, gtHi, n);
    s := a[..];
    m := if hi - gtHi < gtHi - unHi then hi - gtHi else gtHi - unHi;
    BlockSwap(a, unLo, hi - m + 1, m, j);
    GatherUpper(j, a[..], s, ltLo, unLo, gtHi, m);
    n := lo + unLo - ltLo - 1;
    m := hi - (gtHi - unHi) + 1;
  }

  lemma ScanWork(j: Job, s: seq<int>, ltLo: int, unLo: int, unHi: int, gtHi: int)
    requires Scanned(j, s, ltLo, unLo, unHi, gtHi)
    ensures Work(j, s)
  {
  }
}
