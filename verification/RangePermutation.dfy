/** Permuting a stretch of an array and leaving the rest alone. */
module RangePermutation {

  /** s is t with the entries at lo..hi (both included) rearranged. */
  ghost predicate RangePerm(s: seq<int>, t: seq<int>, lo: int, hi: int) {
    0 <= lo <= hi + 1 <= |s| == |t| &&
    (forall p :: 0 <= p < |s| && !(lo <= p <= hi) ==> s[p] == t[p]) &&
    multiset(s[lo..hi + 1]) == multiset(t[lo..hi + 1])
  }

  lemma PermRefl(s: seq<int>, lo: int, hi: int)
    requires 0 <= lo <= hi + 1 <= |s|
    ensures RangePerm(s, s, lo, hi)
  {
  }

  lemma PermTransitive(s: seq<int>, t: seq<int>, u: seq<int>, lo: int, hi: int)
    requires RangePerm(s, t, lo, hi) && RangePerm(t, u, lo, hi)
    ensures RangePerm(s, u, lo, hi)
  {
  }

  /** The stretch may be widened. */
  lemma PermWiden(s: seq<int>, t: seq<int>, lo: int, hi: int, lo': int, hi': int)
    requires RangePerm(s, t, lo, hi) && 0 <= lo' <= lo && hi <= hi' < |s|
    ensures RangePerm(s, t, lo', hi')
  {
    assert s[lo'..hi' + 1] == s[lo'..lo] + s[lo..hi + 1] + s[hi + 1..hi' + 1];
    assert t[lo'..hi' + 1] == t[lo'..lo] + t[lo..hi + 1] + t[hi + 1..hi' + 1];
    assert s[lo'..lo] == t[lo'..lo] && s[hi + 1..hi' + 1] == t[hi + 1..hi' + 1];
  }

  lemma PermSwap(s: seq<int>, i: int, j: int, lo: int, hi: int)
    requires 0 <= lo <= i <= hi < |s| && lo <= j <= hi
    ensures RangePerm(s[i := s[j]][j := s[i]], s, lo, hi)
  {
    var t := s[i := s[j]][j := s[i]];
    var u: seq<int> := s[lo..hi + 1];
    assert t[lo..hi + 1] == u[i - lo := u[j - lo]][j - lo := u[i - lo]];
  }

  /** Where the entry now at p stood before. */
  lemma PermSource(s: seq<int>, t: seq<int>, lo: int, hi: int, p: int) returns (q: int)
    requires RangePerm(s, t, lo, hi) && lo <= p <= hi
    ensures lo <= q <= hi && s[p] == t[q]
  {
    var u, v := s[lo..hi + 1], t[lo..hi + 1];
    assert u[p - lo] in multiset(u);
    assert s[p] in v;
    var k :| 0 <= k < |v| && v[k] == s[p];
    q := lo + k;
  }

  lemma PermSymmetric(s: seq<int>, t: seq<int>, lo: int, hi: int)
    requires RangePerm(s, t, lo, hi)
    ensures RangePerm(t, s, lo, hi)
  {
  }

  ghost predicate Distinct(s: seq<int>) {
    forall j, k :: 0 <= j < k < |s| ==> s[j] != s[k]
  }

  lemma {:induction false} DistinctMultiset(s: seq<int>)
    ensures Distinct(s) <==> forall x :: x in multiset(s) ==> multiset(s)[x] == 1
    decreases |s|
  {
    if s != [] {
      var r := s[1..];
      assert s == [s[0]] + r;
      assert multiset(s) == multiset{s[0]} + multiset(r);
      DistinctMultiset(r);
      if Distinct(s) {
        assert forall k :: 0 <= k < |r| ==> r[k] == s[k + 1];
        assert Distinct(r);
        assert s[0] !in r;
      }
      if forall x :: x in multiset(s) ==> multiset(s)[x] == 1 {
        assert s[0] in multiset(s);
        assert s[0] !in multiset(r);
        assert s[0] !in r;
        forall x | x in multiset(r) ensures multiset(r)[x] == 1 { assert x in multiset(s); }
        assert Distinct(r);
        forall j, k | 0 <= j < k < |s| ensures s[j] != s[k] {
          assert s[k] == r[k - 1];
          if j > 0 { assert s[j] == r[j - 1]; }
        }
      }
    }
  }

  /** Rearranging keeps entries distinct. */
  lemma PermDistinct(s: seq<int>, t: seq<int>, lo: int, hi: int)
    requires RangePerm(s, t, lo, hi) && Distinct(t)
    ensures Distinct(s)
  {
    assert s == s[..lo] + s[lo..hi + 1] + s[hi + 1..];
    assert t == t[..lo] + t[lo..hi + 1] + t[hi + 1..];
    assert s[..lo] == t[..lo] && s[hi + 1..] == t[hi + 1..];
    assert multiset(s) == multiset(t);
    DistinctMultiset(s);
    DistinctMultiset(t);
  }
}
