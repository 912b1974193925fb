/** The codes of a canonical prefix code in the order of their values: shorter codes first, then by
    symbol. Side by side, each takes its share 2^(m-length) of the 2^m words of m bits. */
module CodeOrder {
  import opened Counting
  import opened Bits
  import opened CanonicalCode

  /** The symbols below i with codes of length n. */
  ghost function Of(lens: seq<int>, i: nat, n: nat): (o: seq<nat>)
    requires i <= |lens|
    ensures |o| == Count(lens, i, n)
  {
    if i == 0 then [] else Of(lens, i - 1, n) + (if lens[i - 1] == n then [i - 1] else [])
  }

  /** The symbols with codes of at most n bits, in order. */
  ghost function Order(lens: seq<int>, n: nat): (o: seq<nat>) {
    if n == 0 then [] else Order(lens, n - 1) + Of(lens, |lens|, n)
  }

  lemma {:induction false} OfAt(lens: seq<int>, i: nat, n: nat, j: nat)
    requires i <= |lens| && j < |Of(lens, i, n)|
    ensures Of(lens, i, n)[j] < i && lens[Of(lens, i, n)[j]] == n && Count(lens, Of(lens, i, n)[j], n) == j
    decreases i
  {
    if j < |Of(lens, i - 1, n)| { OfAt(lens, i - 1, n, j); }
  }

  lemma {:induction false} OfHas(lens: seq<int>, i: nat, s: nat)
    requires s < i <= |lens| && lens[s] >= 0
    ensures var n := lens[s]; Count(lens, s, n) < |Of(lens, i, n)| && Of(lens, i, n)[Count(lens, s, n)] == s
    decreases i
  {
    if s < i - 1 { OfHas(lens, i - 1, s); }
  }

  lemma {:induction false} OrderPrefix(lens: seq<int>, n: nat, m: nat)
    requires n <= m
    ensures Order(lens, n) <= Order(lens, m)
    decreases m
  {
    if n < m { OrderPrefix(lens, n, m - 1); }
  }

  /** Code k is the j-th of n bits. */
  ghost predicate Stands(lens: seq<int>, m: nat, k: nat, n: nat, j: nat) {
    1 <= n <= m && k == |Order(lens, n - 1)| + j && j < Count(lens, |lens|, n)
  }

  lemma {:induction false} Standing(lens: seq<int>, m: nat, k: nat) returns (n: nat, j: nat)
    requires k < |Order(lens, m)|
    ensures Stands(lens, m, k, n, j)
    decreases m
  {
    if k < |Order(lens, m - 1)| {
      n, j := Standing(lens, m - 1, k);
    } else {
      n, j := m, k - |Order(lens, m - 1)|;
    }
  }

  lemma StandsFor(lens: seq<int>, m: nat, k: nat, n: nat, j: nat)
    requires Stands(lens, m, k, n, j)
    ensures k < |Order(lens, m)| && Order(lens, m)[k] < |lens| && lens[Order(lens, m)[k]] == n &&
      Code(lens, Order(lens, m)[k]) == First(lens, n) + j
    ensures Order(lens, m)[k] == Of(lens, |lens|, n)[j]
  {
    hide Of;
    hide First;
    OrderPrefix(lens, n, m);
    OfAt(lens, |lens|, n, j);
    assert Order(lens, n)[k] == Of(lens, |lens|, n)[j];
  }

  /** Every symbol with a code is in the order. */
  lemma OrderHas(lens: seq<int>, m: nat, s: nat) returns (k: nat)
    requires s < |lens| && 1 <= lens[s] <= m
    ensures k < |Order(lens, m)| && Order(lens, m)[k] == s
  {
    var n: nat := lens[s];
    OfHas(lens, |lens|, s);
    k := |Order(lens, n - 1)| + Count(lens, s, n);
    assert Stands(lens, m, k, n, Count(lens, s, n));
    StandsFor(lens, m, k, n, Count(lens, s, n));
  }

  /* ---------- positions ---------- */

  /** The length of code k. */
  ghost function Len(lens: seq<int>, m: nat, k: nat): (n: nat)
    requires k < |Order(lens, m)|
    ensures 1 <= n <= m && Order(lens, m)[k] < |lens| && n == lens[Order(lens, m)[k]]
  {
    StandingLen(lens, m, k);
    lens[Order(lens, m)[k]]
  }

  lemma StandingLen(lens: seq<int>, m: nat, k: nat)
    requires k < |Order(lens, m)|
    ensures Order(lens, m)[k] < |lens| && 1 <= lens[Order(lens, m)[k]] <= m
  {
    var n, j := Standing(lens, m, k);
    StandsFor(lens, m, k, n, j);
  }

  /** The value of code k. */
  ghost function Val(lens: seq<int>, m: nat, k: nat): (c: nat)
    requires k < |Order(lens, m)|
    ensures Order(lens, m)[k] < |lens| && lens[Order(lens, m)[k]] > 0 && c == Code(lens, Order(lens, m)[k])
  {
    StandingLen(lens, m, k);
    Code(lens, Order(lens, m)[k])
  }

  /** Where the share of code k starts. */
  ghost function Start(lens: seq<int>, m: nat, k: nat): (p: nat)
    requires k < |Order(lens, m)|
  {
    Val(lens, m, k) * Pow2(m - Len(lens, m, k))
  }

  ghost function End(lens: seq<int>, m: nat, k: nat): (p: nat)
    requires k < |Order(lens, m)|
  {
    Start(lens, m, k) + Pow2(m - Len(lens, m, k))
  }

  /** The words taken by the codes of at most n bits. */
  ghost function Upto(lens: seq<int>, m: nat, n: nat): (w: nat)
    requires n <= m
  {
    Space(lens, |lens|, n, m)
  }

  lemma FirstIsSpace(lens: seq<int>, n: nat, m: nat)
    requires 1 <= n <= m
    ensures First(lens, n) * Pow2(m - n) == Upto(lens, m, n - 1)
  {
    if n == 1 {
      SpaceZero(lens, |lens|, m);
      assert 0 * Pow2(m - 1) == 0;
    } else {
      EndIsSpace(lens, n - 1, m);
      assert Pow2(m - (n - 1)) == 2 * Pow2(m - n);
      var e := CanonicalCode.End(lens, n - 1);
      assert First(lens, n) == 2 * e;
      Doubled(e, Pow2(m - n));
    }
  }

  lemma Doubled(e: int, p: int)
    ensures 2 * e * p == e * (2 * p)
  {
  }

  lemma StartIs(lens: seq<int>, m: nat, k: nat, n: nat, j: nat)
    requires Stands(lens, m, k, n, j)
    ensures k < |Order(lens, m)| && Len(lens, m, k) == n && Val(lens, m, k) == First(lens, n) + j
    ensures Start(lens, m, k) == Upto(lens, m, n - 1) + j * Pow2(m - n) &&
      End(lens, m, k) == Upto(lens, m, n - 1) + (j + 1) * Pow2(m - n)
    ensures Upto(lens, m, n) == Upto(lens, m, n - 1) + Count(lens, |lens|, n) * Pow2(m - n)
  {
    hide First;
    hide Upto;
    hide Of;
    StandsFor(lens, m, k, n, j);
    FirstIsSpace(lens, n, m);
    Distribute2(First(lens, n), j, Pow2(m - n));
    Distribute2(j, 1, Pow2(m - n));
    UptoStep(lens, m, n);
  }

  lemma Distribute2(a: int, b: int, p: int)
    ensures (a + b) * p == a * p + b * p && 1 * p == p
  {
  }

  lemma UptoStep(lens: seq<int>, m: nat, n: nat)
    requires 1 <= n <= m
    ensures Upto(lens, m, n) == Upto(lens, m, n - 1) + Count(lens, |lens|, n) * Pow2(m - n)
    ensures |Order(lens, n)| == |Order(lens, n - 1)| + Count(lens, |lens|, n)
  {
    SpaceStep(lens, |lens|, n, m);
  }

  /** No codes between two lengths: nothing taken between them. */
  lemma {:induction false} NoneBetween(lens: seq<int>, m: nat, n: nat, n': nat)
    requires n <= n' <= m && |Order(lens, n)| == |Order(lens, n')|
    ensures Upto(lens, m, n) == Upto(lens, m, n')
    decreases n'
  {
    hide Upto;
    if n < n' {
      UptoStep(lens, m, n');
      OrderPrefix(lens, n, n' - 1);
      NoneBetween(lens, m, n, n' - 1);
      assert Count(lens, |lens|, n') == 0;
      assert 0 * Pow2(m - n') == 0;
    }
  }

  lemma OrderLongest(lens: seq<int>, n: nat, n': nat)
    requires n <= n'
    ensures |Order(lens, n)| <= |Order(lens, n')|
  {
    OrderPrefix(lens, n, n');
  }

  /** The shares follow one another without a gap, and the lengths do not fall. */
  lemma Consecutive(lens: seq<int>, m: nat, k: nat)
    requires k + 1 < |Order(lens, m)|
    ensures Start(lens, m, k + 1) == End(lens, m, k) && Len(lens, m, k) <= Len(lens, m, k + 1)
  {
    hide Upto;
    hide Start;
    hide End;
    hide Order;
    var n, j := Standing(lens, m, k);
    var n', j' := Standing(lens, m, k + 1);
    StartIs(lens, m, k, n, j);
    StartIs(lens, m, k + 1, n', j');
    UptoStep(lens, m, n);
    if n' < n {
      OrderLongest(lens, n', n - 1);
      UptoStep(lens, m, n');
    } else if n < n' {
      OrderLongest(lens, n, n' - 1);
      assert j' == 0 && |Order(lens, n)| == |Order(lens, n' - 1)|;
      NoneBetween(lens, m, n, n' - 1);
      assert 0 * Pow2(m - n') == 0;
    }
  }

  lemma StartsAtZero(lens: seq<int>, m: nat)
    requires |Order(lens, m)| > 0
    ensures Start(lens, m, 0) == 0
  {
    hide *;
    var n, j := Standing(lens, m, 0);
    StandsOn(lens, m, 0, n, j);
    StartIs(lens, m, 0, n, j);
    NoneBetween(lens, m, 0, n - 1);
    NoneTimes(j, Pow2(m - n));
    UptoZero(lens, m);
  }

  lemma StandsOn(lens: seq<int>, m: nat, k: nat, n: nat, j: nat)
    requires Stands(lens, m, k, n, j)
    ensures 1 <= n <= m && k == |Order(lens, n - 1)| + j && |Order(lens, 0)| == 0
  {
  }

  lemma NoneTimes(j: nat, p: nat)
    requires j == 0
    ensures j * p == 0
  {
  }

  lemma UptoZero(lens: seq<int>, m: nat)
    ensures Upto(lens, m, 0) == 0
  {
    SpaceZero(lens, |lens|, m);
  }

  lemma LastStanding(lens: seq<int>, m: nat, k: nat, n: nat, j: nat)
    requires Stands(lens, m, k, n, j) && k + 1 == |Order(lens, m)|
    ensures 1 <= n <= m && j + 1 == Count(lens, |lens|, n) && |Order(lens, n)| == |Order(lens, m)|
  {
    hide *;
    StandsParts(lens, m, k, n, j);
    UptoStep(lens, m, n);
    OrderLongest(lens, n, m);
  }

  lemma StandsParts(lens: seq<int>, m: nat, k: nat, n: nat, j: nat)
    requires Stands(lens, m, k, n, j)
    ensures 1 <= n <= m && k == |Order(lens, n - 1)| + j && j < Count(lens, |lens|, n)
  {
    hide Order;
    hide Count;
  }

  lemma EndsAtSpace(lens: seq<int>, m: nat, k: nat)
    requires k + 1 == |Order(lens, m)|
    ensures End(lens, m, k) == Upto(lens, m, m)
  {
    hide *;
    var n, j := Standing(lens, m, k);
    StartIs(lens, m, k, n, j);
    LastStanding(lens, m, k, n, j);
    NoneBetween(lens, m, n, m);
  }

  /** The codes of at most n bits end where the longer ones start. */
  lemma Divide(lens: seq<int>, m: nat, k: nat, n: nat)
    requires k < |Order(lens, m)| && n <= m
    ensures Len(lens, m, k) <= n ==> End(lens, m, k) <= Upto(lens, m, n)
    ensures Len(lens, m, k) > n ==> Start(lens, m, k) >= Upto(lens, m, n)
  {
    hide Upto;
    hide Start;
    hide End;
    var l, j := Standing(lens, m, k);
    StartIs(lens, m, k, l, j);
    if l <= n {
      UptoMonotone(lens, m, l, n);
      MulMonotone(j + 1, Count(lens, |lens|, l), Pow2(m - l));
    } else {
      UptoMonotone(lens, m, n, l - 1);
      MulNonNegative(j, Pow2(m - l));
    }
  }

  lemma UptoMonotone(lens: seq<int>, m: nat, n: nat, n': nat)
    requires n <= n' <= m
    ensures Upto(lens, m, n) <= Upto(lens, m, n')
  {
    SpaceMonotone(lens, |lens|, n, n', m);
  }

  lemma MulMonotone(a: int, b: int, p: int)
    requires a <= b && p >= 0
    ensures a * p <= b * p
  {
  }

  /** Positions increase along the order. */
  lemma {:induction false} Increasing(lens: seq<int>, m: nat, k: nat, k': nat)
    requires k < k' < |Order(lens, m)|
    ensures End(lens, m, k) <= Start(lens, m, k') && Len(lens, m, k) <= Len(lens, m, k')
    decreases k'
  {
    hide Start;
    hide Len;
    Consecutive(lens, m, k' - 1);
    if k < k' - 1 {
      Increasing(lens, m, k, k' - 1);
      EndAfter(lens, m, k' - 1);
    }
  }

  lemma EndAfter(lens: seq<int>, m: nat, k: nat)
    requires k < |Order(lens, m)|
    ensures End(lens, m, k) > Start(lens, m, k)
  {
  }

  /* ---------- how many of a length are still to come ---------- */

  /** Codes of n bits from code k on. */
  ghost function ToCome(lens: seq<int>, m: nat, k: nat, n: nat): (c: nat)
    requires k <= |Order(lens, m)|
    decreases |Order(lens, m)| - k
  {
    if k == |Order(lens, m)| then 0 else ToCome(lens, m, k + 1, n) + (if Len(lens, m, k) == n then 1 else 0)
  }

  /** Shorter ones have all been; longer ones are all to come. */
  lemma {:induction false} ToComeIs(lens: seq<int>, m: nat, k: nat, l: nat, j: nat, n: nat)
    requires Stands(lens, m, k, l, j) && k < |Order(lens, m)| && 1 <= n <= m
    ensures ToCome(lens, m, k, n) == if n < l then 0 else if n == l then Count(lens, |lens|, n) - j
      else Count(lens, |lens|, n)
    decreases |Order(lens, m)| - k
  {
    hide Order;
    StartIs(lens, m, k, l, j);
    if k + 1 < |Order(lens, m)| {
      var l', j' := Standing(lens, m, k + 1);
      ToComeIs(lens, m, k + 1, l', j', n);
      StartIs(lens, m, k + 1, l', j');
      Following(lens, m, k, l, j, l', j', n);
    } else {
      LastStands(lens, m, k, l, j, n);
    }
  }

  lemma OrderStep(lens: seq<int>, n: nat)
    requires n >= 1
    ensures |Order(lens, n)| == |Order(lens, n - 1)| + Count(lens, |lens|, n)
  {
    hide Count;
    hide Pow2;
    UptoStep(lens, n, n);
  }

  /** The next code is the next of its length, or the first of the next length there is. */
  lemma Following(lens: seq<int>, m: nat, k: nat, l: nat, j: nat, l': nat, j': nat, n: nat)
    requires Stands(lens, m, k, l, j) && Stands(lens, m, k + 1, l', j') && 1 <= n <= m
    ensures (l' == l && j' == j + 1) ||
      (l < l' && j' == 0 && j + 1 == Count(lens, |lens|, l) && (l < n < l' ==> Count(lens, |lens|, n) == 0))
  {
    hide Count;
    hide Order;
    OrderStep(lens, l);
    OrderStep(lens, l');
    OrderStep(lens, n);
    if l' < l {
      OrderLongest(lens, l', l - 1);
    } else if l < l' {
      OrderLongest(lens, l, l' - 1);
      if l < n < l' {
        OrderLongest(lens, l, n - 1);
        OrderLongest(lens, n, l' - 1);
      }
    }
  }

  lemma LastStands(lens: seq<int>, m: nat, k: nat, l: nat, j: nat, n: nat)
    requires Stands(lens, m, k, l, j) && k + 1 == |Order(lens, m)| && 1 <= n <= m
    ensures j + 1 == Count(lens, |lens|, l) && (l < n ==> Count(lens, |lens|, n) == 0)
  {
    hide *;
    LastStanding(lens, m, k, l, j);
    UptoStep(lens, m, n);
    if l < n {
      OrderLongest(lens, l, n - 1);
      OrderLongest(lens, n, m);
    }
  }

  /** At the start all are to come. */
  lemma AllToCome(lens: seq<int>, m: nat, n: nat)
    requires 1 <= n <= m && |Order(lens, m)| > 0
    ensures ToCome(lens, m, 0, n) == Count(lens, |lens|, n)
  {
    hide ToCome;
    hide Order;
    var l, j := Standing(lens, m, 0);
    ToComeIs(lens, m, 0, l, j, n);
    UptoStep(lens, m, n);
    if n < l { OrderLongest(lens, n, l - 1); }
  }

  /** The next length there is a code of. */
  lemma NextLength(lens: seq<int>, m: nat, k: nat, n: nat)
    requires k < |Order(lens, m)| && Len(lens, m, k) >= n && ToCome(lens, m, k, n) > 0 && 1 <= n <= m
    ensures Len(lens, m, k) == n
  {
    hide ToCome;
    var l, j := Standing(lens, m, k);
    StartIs(lens, m, k, l, j);
    ToComeIs(lens, m, k, l, j, n);
  }
}
