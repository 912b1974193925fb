/** The explicit stack of stretches still to be sorted, as both quicksorts keep it: what it says
    about order, how deep it can get, and why the loops that drive it stop. */
module RangeStack {
  import opened Bits
  import opened RangePermutation

  /** A pending stretch lo..hi (empty when hi == lo - 1) whose entries agree up to depth d. */
  datatype Range = Range(lo: int, hi: int, d: int)

  function Size(r: Range): (n: nat) {
    if r.lo <= r.hi then r.hi - r.lo + 1 else 0
  }

  /* ---------- order ---------- */

  ghost predicate Together(stk: seq<Range>, p: int, q: int) {
    exists r :: 0 <= r < |stk| && stk[r].lo <= p && q <= stk[r].hi
  }

  /** Pending stretches lie in lo0..hi0 and do not overlap. */
  ghost predicate Apart(stk: seq<Range>, lo0: int, hi0: int) {
    (forall r :: 0 <= r < |stk| ==> lo0 <= stk[r].lo <= stk[r].hi + 1 <= hi0 + 1) &&
    (forall r, t :: 0 <= r < t < |stk| ==> stk[r].hi < stk[t].lo || stk[t].hi < stk[r].lo)
  }

  /** Entries are in order unless they lie in one pending stretch. */
  ghost predicate Ordered(s: seq<int>, le: (int, int) -> bool, stk: seq<Range>, lo0: int, hi0: int) {
    0 <= lo0 && hi0 < |s| &&
    forall p, q :: lo0 <= p < q <= hi0 ==> le(s[p], s[q]) || Together(stk, p, q)
  }

  lemma TogetherLast(stk: seq<Range>, x: Range, p: int, q: int)
    requires Together(stk + [x], p, q)
    ensures Together(stk, p, q) || (x.lo <= p && q <= x.hi)
  {
    var r :| 0 <= r < |stk + [x]| && (stk + [x])[r].lo <= p && q <= (stk + [x])[r].hi;
    if r < |stk| { assert stk[r] == (stk + [x])[r]; }
  }

  lemma TogetherMore(stk: seq<Range>, more: seq<Range>, p: int, q: int)
    ensures Together(stk, p, q) || Together(more, p, q) ==> Together(stk + more, p, q)
  {
    if Together(stk, p, q) {
      var r :| 0 <= r < |stk| && stk[r].lo <= p && q <= stk[r].hi;
      assert (stk + more)[r] == stk[r];
    } else if Together(more, p, q) {
      var r :| 0 <= r < |more| && more[r].lo <= p && q <= more[r].hi;
      assert (stk + more)[|stk| + r] == more[r];
    }
  }

  /** Different stretches are never confused: a pair that straddles x's edge is not pending. */
  lemma Straddle(stk: seq<Range>, x: Range, p: int, q: int, lo0: int, hi0: int)
    requires Apart(stk + [x], lo0, hi0) && p < q
    requires (x.lo <= p <= x.hi) != (x.lo <= q <= x.hi)
    ensures !Together(stk + [x], p, q)
  {
    var all := stk + [x];
    assert all[|stk|] == x;
    forall r | 0 <= r < |all| ensures !(all[r].lo <= p && q <= all[r].hi) {
      if r < |stk| {
        assert all[r].hi < x.lo || x.hi < all[r].lo;
      }
    }
  }

  lemma ApartStep(stk: seq<Range>, x: Range, more: seq<Range>, lo0: int, hi0: int)
    requires Apart(stk + [x], lo0, hi0) && Apart(more, x.lo, x.hi)
    ensures Apart(stk + more, lo0, hi0)
  {
    var all, new' := stk + [x], stk + more;
    assert all[|stk|] == x;
    forall r | 0 <= r < |new'| ensures lo0 <= new'[r].lo <= new'[r].hi + 1 <= hi0 + 1 {
      if r < |stk| { assert new'[r] == all[r]; } else { assert new'[r] == more[r - |stk|]; }
    }
    forall r, t | 0 <= r < t < |new'| ensures new'[r].hi < new'[t].lo || new'[t].hi < new'[r].lo {
      if t < |stk| {
        assert new'[r] == all[r] && new'[t] == all[t];
      } else {
        assert new'[t] == more[t - |stk|];
        if r < |stk| {
          assert new'[r] == all[r];
          assert all[r].hi < x.lo || x.hi < all[r].lo;
        } else {
          assert new'[r] == more[r - |stk|];
        }
      }
    }
  }

  /** Rearranging the popped stretch x, so that its entries are in order except within the
      stretches pushed instead, keeps everything in order. */
  lemma OrderedStep(s': seq<int>, s: seq<int>, le: (int, int) -> bool, stk: seq<Range>, x: Range,
                    more: seq<Range>, lo0: int, hi0: int)
    requires Apart(stk + [x], lo0, hi0) && Ordered(s, le, stk + [x], lo0, hi0)
    requires RangePerm(s', s, x.lo, x.hi)
    requires forall p, q :: x.lo <= p < q <= x.hi ==> le(s'[p], s'[q]) || Together(more, p, q)
    ensures Ordered(s', le, stk + more, lo0, hi0)
  {
    forall p, q | lo0 <= p < q <= hi0 ensures le(s'[p], s'[q]) || Together(stk + more, p, q) {
      OrderedPair(s', s, le, stk, x, more, lo0, hi0, p, q);
    }
  }

  lemma OrderedPair(s': seq<int>, s: seq<int>, le: (int, int) -> bool, stk: seq<Range>, x: Range,
                    more: seq<Range>, lo0: int, hi0: int, p: int, q: int)
    requires Apart(stk + [x], lo0, hi0) && Ordered(s, le, stk + [x], lo0, hi0)
    requires RangePerm(s', s, x.lo, x.hi)
    requires forall p, q :: x.lo <= p < q <= x.hi ==> le(s'[p], s'[q]) || Together(more, p, q)
    requires lo0 <= p < q <= hi0
    ensures le(s'[p], s'[q]) || Together(stk + more, p, q)
  {
    TogetherMore(stk, more, p, q);
    assert (stk + [x])[|stk|] == x;
    var inP, inQ := x.lo <= p <= x.hi, x.lo <= q <= x.hi;
    if inP && inQ {
    } else if !inP && !inQ {
      assert s'[p] == s[p] && s'[q] == s[q];
      if !le(s[p], s[q]) {
        TogetherLast(stk, x, p, q);
      }
    } else if inP {
      var p' := PermSource(s', s, x.lo, x.hi, p);
      Straddle(stk, x, p', q, lo0, hi0);
      assert s'[q] == s[q];
    } else {
      var q' := PermSource(s', s, x.lo, x.hi, q);
      Straddle(stk, x, p, q', lo0, hi0);
      assert s'[p] == s[p];
    }
  }

  /** With nothing pending, everything is in order. */
  lemma OrderedDone(s: seq<int>, le: (int, int) -> bool, lo0: int, hi0: int)
    requires Ordered(s, le, [], lo0, hi0)
    ensures forall p, q :: lo0 <= p < q <= hi0 ==> le(s[p], s[q])
  {
    forall p, q | lo0 <= p < q <= hi0 ensures le(s[p], s[q]) {
      assert !Together([], p, q);
    }
  }

  lemma OrderedAll(s: seq<int>, le: (int, int) -> bool, lo0: int, hi0: int, d: int)
    requires 0 <= lo0 <= hi0 + 1 <= |s|
    ensures Ordered(s, le, [Range(lo0, hi0, d)], lo0, hi0)
  {
    forall p, q | lo0 <= p < q <= hi0 ensures Together([Range(lo0, hi0, d)], p, q) {
      assert [Range(lo0, hi0, d)][0].lo <= p;
    }
  }

  /* ---------- depth ---------- */

  /** The total size of the stretches from index k up. */
  ghost function Total(stk: seq<Range>, k: nat): nat
    decreases |stk| - k
  {
    if k >= |stk| then 0 else Size(stk[k]) + Total(stk, k + 1)
  }

  /** Larger stretches lie lower; each covers all that lies above its upper neighbour; only the
      top three may be empty. */
  ghost predicate Balanced(stk: seq<Range>) {
    (forall k :: 0 <= k && k + 1 < |stk| ==> Size(stk[k]) >= Size(stk[k + 1])) &&
    (forall k :: 0 <= k < |stk| ==> Size(stk[k]) >= Total(stk, k + 2)) &&
    (forall k :: 0 <= k && k + 3 < |stk| ==> Size(stk[k]) >= 1)
  }

  lemma {:induction false} TotalAppend(stk: seq<Range>, more: seq<Range>, k: nat)
    requires k <= |stk|
    ensures Total(stk + more, k) == Total(stk, k) + Total(more, 0)
    decreases |stk| - k
  {
    if k < |stk| {
      assert (stk + more)[k] == stk[k];
      TotalAppend(stk, more, k + 1);
    } else {
      TotalSuffix(stk, more, 0);
    }
  }

  lemma {:induction false} TotalSuffix(stk: seq<Range>, more: seq<Range>, k: nat)
    requires k <= |more|
    ensures Total(stk + more, |stk| + k) == Total(more, k)
    decreases |more| - k
  {
    if k < |more| {
      assert (stk + more)[|stk| + k] == more[k];
      TotalSuffix(stk, more, k + 1);
    }
  }

  /** Up to three stretches, largest first, not larger together than the one they replace. */
  ghost predicate Splits(more: seq<Range>, x: Range) {
    1 <= |more| <= 3 && Total(more, 0) <= Size(x) &&
    forall k :: 0 <= k && k + 1 < |more| ==> Size(more[k]) >= Size(more[k + 1])
  }

  lemma BalancedStep(stk: seq<Range>, x: Range, more: seq<Range>)
    requires Balanced(stk + [x]) && Splits(more, x) && Size(x) >= 1
    ensures Balanced(stk + more) && Total(stk + more, 0) <= Total(stk + [x], 0)
  {
    var all, new' := stk + [x], stk + more;
    TotalAppend(stk, [x], 0);
    TotalAppend(stk, more, 0);
    assert Total([x], 1) == 0 && Total([x], 0) == Size(x);
    TotalsOf(more);
    forall k | 0 <= k && k + 1 < |new'| ensures Size(new'[k]) >= Size(new'[k + 1]) {
      DescendingAt(stk, x, more, k);
    }
    forall k | 0 <= k < |new'| ensures Size(new'[k]) >= Total(new', k + 2) {
      CoverAt(stk, x, more, k);
    }
    forall k | 0 <= k && k + 3 < |new'| ensures Size(new'[k]) >= 1 {
      assert k < |stk|;
      DescendingTo(all, k, |stk|);
      assert all[|stk|] == x && all[k] == new'[k];
    }
  }

  lemma {:induction false} DescendingTo(stk: seq<Range>, k: nat, m: nat)
    requires forall k :: 0 <= k && k + 1 < |stk| ==> Size(stk[k]) >= Size(stk[k + 1])
    requires k <= m < |stk|
    ensures Size(stk[k]) >= Size(stk[m])
    decreases m - k
  {
    if k < m {
      DescendingTo(stk, k + 1, m);
      assert Size(stk[k]) >= Size(stk[k + 1]);
    }
  }

  lemma TotalsOf(more: seq<Range>)
    requires 1 <= |more| <= 3
    ensures Total(more, 0) == Size(more[0]) + Total(more, 1)
    ensures |more| >= 2 ==> Total(more, 1) == Size(more[1]) + Total(more, 2)
    ensures |more| == 3 ==> Total(more, 2) == Size(more[2])
    ensures forall k: nat :: k >= |more| ==> Total(more, k) == 0
  {
  }

  lemma DescendingAt(stk: seq<Range>, x: Range, more: seq<Range>, k: nat)
    requires Balanced(stk + [x]) && Splits(more, x) && k + 1 < |stk + more|
    ensures Size((stk + more)[k]) >= Size((stk + more)[k + 1])
  {
    var all, new' := stk + [x], stk + more;
    TotalsOf(more);
    if k + 1 < |stk| {
      assert new'[k] == all[k] && new'[k + 1] == all[k + 1];
    } else if k + 1 == |stk| {
      assert new'[k] == all[k] && new'[k + 1] == more[0] && all[k + 1] == x;
      assert Size(all[k]) >= Size(all[k + 1]);
    } else {
      assert new'[k] == more[k - |stk|] && new'[k + 1] == more[k - |stk| + 1];
      assert 0 <= k - |stk| && k - |stk| + 1 < |more|;
    }
  }

  lemma CoverAt(stk: seq<Range>, x: Range, more: seq<Range>, k: nat)
    requires Balanced(stk + [x]) && Splits(more, x) && k < |stk + more|
    ensures Size((stk + more)[k]) >= Total(stk + more, k + 2)
  {
    var all, new' := stk + [x], stk + more;
    TotalsOf(more);
    TotalsOf([x]);
    if k + 2 <= |stk| {
      TotalAppend(stk, [x], k + 2);
      TotalAppend(stk, more, k + 2);
      assert new'[k] == all[k];
      assert Size(all[k]) >= Total(all, k + 2);
    } else {
      var m := k + 2 - |stk|;
      if m <= |more| { TotalSuffix(stk, more, m); }
      if k + 1 == |stk| {
        assert new'[k] == all[k] && all[k + 1] == x;
        assert Size(all[k]) >= Size(all[k + 1]);
      } else {
        assert new'[k] == more[k - |stk|];
        if m == 2 && |more| == 3 {
          assert Size(more[0]) >= Size(more[0 + 1]) && Size(more[1]) >= Size(more[1 + 1]);
        }
      }
    }
  }

  lemma BalancedPop(stk: seq<Range>, x: Range)
    requires Balanced(stk + [x])
    ensures Balanced(stk) && Total(stk, 0) <= Total(stk + [x], 0)
  {
    var all := stk + [x];
    TotalAppend(stk, [x], 0);
    forall k | 0 <= k && k + 1 < |stk| ensures Size(stk[k]) >= Size(stk[k + 1]) {
      assert all[k] == stk[k] && all[k + 1] == stk[k + 1];
    }
    forall k | 0 <= k < |stk| ensures Size(stk[k]) >= Total(stk, k + 2) {
      assert all[k] == stk[k];
      if k + 2 <= |stk| { TotalAppend(stk, [x], k + 2); }
    }
    forall k | 0 <= k && k + 3 < |stk| ensures Size(stk[k]) >= 1 {
      assert all[k] == stk[k];
    }
  }

  lemma TotalUnfold(stk: seq<Range>, k: nat)
    requires k < |stk|
    ensures Total(stk, k) == Size(stk[k]) + Total(stk, k + 1)
  {
  }

  lemma BalancedAt(stk: seq<Range>, k: nat)
    requires Balanced(stk) && k + 3 < |stk|
    ensures Size(stk[k]) >= 1 && Size(stk[k]) >= Total(stk, k + 2)
  {
  }

  lemma {:induction false} DepthGrowth(stk: seq<Range>, k: nat, m: nat)
    requires Balanced(stk) && k + 2 * m + 3 < |stk|
    ensures Total(stk, k) >= Pow2(m)
    decreases m
  {
    hide Total;
    hide Balanced;
    TotalUnfold(stk, k);
    TotalUnfold(stk, k + 1);
    BalancedAt(stk, k);
    if m > 0 {
      DepthGrowth(stk, k + 2, m - 1);
    }
  }

  lemma Pow2At31()
    ensures Pow2(31) == 0x8000_0000
  {
    assert Pow2(8) == 0x100;
    assert Pow2(7) == 0x80;
    Pow2Sum(8, 8);
    Pow2Sum(16, 8);
    Pow2Sum(24, 7);
  }

  /** A stack over fewer than 2^31 entries holds fewer than 68 stretches. */
  lemma DepthBound(stk: seq<Range>)
    requires Balanced(stk)
    ensures |stk| >= 68 ==> Total(stk, 0) >= 0x8000_0000
  {
    hide *;
    if |stk| >= 68 {
      DepthGrowth(stk, 0, 31);
      Pow2At31();
    }
  }

  /* ---------- termination ---------- */

  /** What remains to be done for one stretch; depths stay below 17. */
  ghost function Weight(r: Range): nat
  {
    1 + if r.d < 17 then 3 * Size(r) * (17 - r.d) else 0
  }

  ghost function Pending(stk: seq<Range>): nat
    decreases |stk|
  {
    if stk == [] then 0 else Pending(stk[..|stk| - 1]) + Weight(stk[|stk| - 1])
  }

  lemma WorkPush(stk: seq<Range>, x: Range)
    ensures Pending(stk + [x]) == Pending(stk) + Weight(x)
  {
    assert (stk + [x])[..|stk|] == stk;
  }
}
