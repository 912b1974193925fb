/** Why each step of inflate_table keeps what has been entered: codes do not start with one another,
    a second table is begun exactly where its share of the codes begins, and is large enough. */
module InflateSteps {
  import opened Bits
  import opened CanonicalCode
  import opened CodeOrder
  import opened ReversedBits
  import opened InflateCodes

  /* ---------- codes among each other ---------- */

  ghost function CodeValue(lens: seq<int>, k: nat): (c: nat)
    requires k < Total(lens)
  {
    Val(lens, MAXBITS, k)
  }

  ghost function From(lens: seq<int>, k: nat): (p: nat)
    requires k < Total(lens)
  {
    Start(lens, MAXBITS, k)
  }

  ghost function To(lens: seq<int>, k: nat): (p: nat)
    requires k < Total(lens)
  {
    CodeOrder.End(lens, MAXBITS, k)
  }

  lemma Parts(lens: seq<int>, k: nat)
    requires k < Total(lens)
    ensures Huff(lens, k) == Rev(CodeValue(lens, k), Size(lens, k)) && 1 <= Size(lens, k) <= MAXBITS
    ensures From(lens, k) == CodeValue(lens, k) * Pow2(MAXBITS - Size(lens, k)) &&
      To(lens, k) == From(lens, k) + Pow2(MAXBITS - Size(lens, k))
  {
    hide Pow2;
    hide Rev;
    hide Val;
  }

  lemma ValueFits(lens: seq<int>, k: nat)
    requires k < Total(lens) && Fit(lens)
    ensures CodeValue(lens, k) < Pow2(Size(lens, k)) && Huff(lens, k) < Pow2(Size(lens, k))
  {
    hide Pow2;
    hide Rev;
    hide Code;
    hide Kraft;
    StandingLen(lens, MAXBITS, k);
    CodeFits(lens, Order(lens, MAXBITS)[k], MAXBITS);
    RevBound(CodeValue(lens, k), Size(lens, k));
  }

  lemma Later(lens: seq<int>, k': nat, k: nat)
    requires k' < k < Total(lens)
    ensures To(lens, k') <= From(lens, k) && Size(lens, k') <= Size(lens, k)
  {
    Increasing(lens, MAXBITS, k', k);
  }

  /** c * 2^(m-n) is past (c' + 1) * 2^(m-n'): so the first n' bits of c are more than c'. */
  lemma FirstBitsPast(c: nat, n: nat, c': nat, n': nat, m: nat)
    requires n' <= n <= m && c' * Pow2(m - n') + Pow2(m - n') <= c * Pow2(m - n)
    ensures c / Pow2(n - n') > c'
  {
    Pow2Sum(n - n', m - n);
    var p, q := Pow2(m - n), Pow2(n - n');
    assert Pow2(m - n') == q * p;
    Grouped(c', q, p);
    CancelFactor((c' + 1) * q, c, p);
    QuotientAtLeast(c, c' + 1, q);
  }

  lemma Grouped(a: nat, q: nat, p: nat)
    ensures a * (q * p) + q * p == (a + 1) * q * p
  {
  }

  lemma LowIs(x: nat, n: nat)
    ensures Low(x, n) == x % Pow2(n) && High(x, n) == x / Pow2(n)
  {
  }

  /** No code begins with an earlier one. */
  lemma PrefixFree(lens: seq<int>, k': nat, k: nat)
    requires k' < k < Total(lens) && Fit(lens)
    ensures Size(lens, k') <= Size(lens, k) && Low(Huff(lens, k), Size(lens, k')) != Huff(lens, k')
  {
    hide *;
    LowIs(Huff(lens, k), Size(lens, k'));
    Parts(lens, k);
    Parts(lens, k');
    Later(lens, k', k);
    ValueFits(lens, k);
    ValueFits(lens, k');
    var n, n', c, c' := Size(lens, k), Size(lens, k'), CodeValue(lens, k), CodeValue(lens, k');
    FirstBitsPast(c, n, c', n', MAXBITS);
    RevPrefix(c, n, n');
    Pow2Sum(n', n - n');
    QuotientLess(c, Pow2(n'), Pow2(n - n'));
    var f := c / Pow2(n - n');
    if Rev(f, n') == Rev(c', n') { RevInjective(f, c', n'); }
  }

  /* ---------- the first root bits of long codes ---------- */

  ghost function Front(lens: seq<int>, root: nat, k: nat): (q: nat)
    requires k < Total(lens) && root <= MAXBITS
  {
    Over(From(lens, k), Pow2(MAXBITS - root))
  }

  ghost function Over(w: nat, p: nat): (q: nat)
    requires p >= 1
  {
    w / p
  }

  lemma FrontOfCode(c: nat, n: nat, root: nat, m: nat)
    requires root <= n <= m
    ensures c * Pow2(m - n) / Pow2(m - root) == c / Pow2(n - root)
  {
    var p, q := Pow2(m - n), Pow2(n - root);
    Pow2Sum(n - root, m - n);
    MulMod(c, p, q);
  }

  lemma MulMod(x: nat, p: nat, q: nat)
    requires p >= 1 && q >= 1
    ensures q * p >= 1 && (x * p) / (q * p) == x / q && (x * p) % (q * p) == (x % q) * p
  {
    var a, r := x / q, x % q;
    assert x == a * q + r;
    Triple(a, q, r, p);
    Scaled(r, q, p);
    QuotientIs(x * p, q * p, a, r * p);
  }

  lemma Triple(a: int, q: int, r: int, p: int)
    ensures (a * q + r) * p == a * (q * p) + r * p
  {
  }

  lemma Scaled(r: int, q: int, p: int)
    requires 0 <= r < q && p >= 1
    ensures 0 <= r * p < q * p && q * p >= 1
  {
    MulSplit(q, r, p);
    MulAtLeast(q - r, p);
    assert 0 <= r * p;
    MulAtLeast(q, p);
  }

  /** The root index of a long code is its front, reversed. */
  lemma IndexIsFront(lens: seq<int>, root: nat, k: nat)
    requires k < Total(lens) && root <= Size(lens, k) && root <= MAXBITS && Fit(lens)
    ensures Low(Huff(lens, k), root) == Rev(Front(lens, root, k), root) && Front(lens, root, k) < Pow2(root)
    ensures Front(lens, root, k) == CodeValue(lens, k) / Pow2(Size(lens, k) - root)
  {
    hide Pow2;
    hide Rev;
    hide Huff;
    hide CodeValue;
    hide From;
    hide Size;
    hide Fit;
    Parts(lens, k);
    ValueFits(lens, k);
    var n, c := Size(lens, k), CodeValue(lens, k);
    FrontOfCode(c, n, root, MAXBITS);
    RevPrefix(c, n, root);
    Pow2Sum(root, n - root);
    QuotientLess(c, Pow2(root), Pow2(n - root));
  }

  lemma QuotientMonotone(a: nat, b: nat, p: nat)
    requires a <= b && p >= 1
    ensures a / p <= b / p
  {
    DivMod(a, p);
    QuotientAtLeast(b, a / p, p);
  }

  lemma FrontMonotone(lens: seq<int>, root: nat, k': nat, k: nat)
    requires k' <= k < Total(lens) && root <= MAXBITS
    ensures Front(lens, root, k') <= Front(lens, root, k)
  {
    hide From;
    hide To;
    hide Pow2;
    if k' < k {
      Later(lens, k', k);
      Parts(lens, k');
    }
    QuotientMonotone(From(lens, k'), From(lens, k), Pow2(MAXBITS - root));
  }

  /** A long code whose root index differs from that of the code before it has an index of its own. */
  lemma FreshIndex(lens: seq<int>, root: nat, k': nat, k: nat)
    requires k' <= k && k + 1 < Total(lens) && root < Size(lens, k') && root <= MAXBITS && Fit(lens)
    requires Low(Huff(lens, k + 1), root) != Low(Huff(lens, k), root)
    ensures Low(Huff(lens, k + 1), root) != Low(Huff(lens, k'), root)
  {
    hide *;
    SizesGrow(lens, k', k);
    SizesGrow(lens, k', k + 1);
    IndexIsFront(lens, root, k');
    IndexIsFront(lens, root, k);
    IndexIsFront(lens, root, k + 1);
    FrontMonotone(lens, root, k', k);
    FrontMonotone(lens, root, k, k + 1);
    if Rev(Front(lens, root, k + 1), root) == Rev(Front(lens, root, k'), root) {
      RevInjective(Front(lens, root, k + 1), Front(lens, root, k'), root);
    }
  }

  lemma SizesGrow(lens: seq<int>, k': nat, k: nat)
    requires k' <= k < Total(lens)
    ensures Size(lens, k') <= Size(lens, k)
  {
    if k' < k { Later(lens, k', k); }
  }

  /* ---------- where a second table begins ---------- */

  /** A long code ends within its own front. */
  lemma EndsInFront(c: nat, n: nat, root: nat, m: nat)
    requires root <= n <= m
    ensures c * Pow2(m - n) + Pow2(m - n) <= (c * Pow2(m - n) / Pow2(m - root) + 1) * Pow2(m - root)
  {
    hide Pow2;
    var p, q := Pow2(m - n), Pow2(n - root);
    FrontOfCode(c, n, root, m);
    Pow2Sum(n - root, m - n);
    DivMod(c, q);
    var f := c / q;
    Distribute2(f, 1, q);
    MulLe(c + 1, (f + 1) * q, p);
    Distribute2(c, 1, p);
    Regroup3(f + 1, q, p);
  }

  /** A short code ends where a front begins. */
  lemma EndsAtFront(c: nat, n: nat, root: nat, m: nat)
    requires n <= root <= m
    ensures (c * Pow2(m - n) + Pow2(m - n)) % Pow2(m - root) == 0
  {
    hide Pow2;
    var p, q := Pow2(m - root), Pow2(root - n);
    Pow2Sum(root - n, m - root);
    Grouped(c, q, p);
    QuotientIs((c + 1) * q * p, p, (c + 1) * q, 0);
  }

  lemma MulLe(a: int, b: int, p: int)
    requires a <= b && p >= 0
    ensures a * p <= b * p
  {
  }

  lemma Regroup3(a: int, b: int, c: int)
    ensures a * b * c == a * (b * c)
  {
  }

  /** A new root index: the code is the first with its front, all the rest of it zero. */
  lemma BeginsShare(lens: seq<int>, root: nat, k: nat)
    requires k + 1 < Total(lens) && root < Size(lens, k + 1) && root <= MAXBITS && Fit(lens)
    requires root < Size(lens, k) ==> Low(Huff(lens, k + 1), root) != Low(Huff(lens, k), root)
    ensures From(lens, k + 1) == Front(lens, root, k + 1) * Pow2(MAXBITS - root)
  {
    hide *;
    NextFrom(lens, k);
    Parts(lens, k);
    Parts(lens, k + 1);
    var b := Pow2(MAXBITS - root);
    if Size(lens, k) <= root { EndsAtFront(CodeValue(lens, k), Size(lens, k), root, MAXBITS); }
    FrontIs(lens, root, k);
    FrontIs(lens, root, k + 1);
    DivMod(From(lens, k + 1), b);
    if root < Size(lens, k) {
      EndsInFront(CodeValue(lens, k), Size(lens, k), root, MAXBITS);
      IndexIsFront(lens, root, k);
      IndexIsFront(lens, root, k + 1);
      FrontMonotone(lens, root, k, k + 1);
      MulLe(Front(lens, root, k) + 1, Front(lens, root, k + 1), b);
    }
  }

  lemma FrontIs(lens: seq<int>, root: nat, k: nat)
    requires k < Total(lens) && root <= MAXBITS
    ensures Front(lens, root, k) == From(lens, k) / Pow2(MAXBITS - root)
  {
  }

  lemma NextFrom(lens: seq<int>, k: nat)
    requires k + 1 < Total(lens)
    ensures From(lens, k + 1) == To(lens, k) && Size(lens, k) <= Size(lens, k + 1)
  {
    Consecutive(lens, MAXBITS, k);
  }

  /* ---------- how large it must be ---------- */

  /** All codes with root index low have at most root + curr bits. */
  ghost predicate Roomy(lens: seq<int>, root: nat, low: int, curr: nat) {
    forall k ::
      0 <= k < Total(lens) && Size(lens, k) > root && Low(Huff(lens, k), root) == low ==> Size(lens, k) <= root + curr
  }

  /** No code is longer than max. */
  ghost predicate Longest(lens: seq<int>, max: nat) {
    forall k :: 0 <= k < Total(lens) ==> Size(lens, k) <= max
  }

  lemma RoomyAll(lens: seq<int>, root: nat, low: int, curr: nat)
    requires Longest(lens, root + curr)
    ensures Roomy(lens, root, low, curr)
  {
  }

  /** Once the codes of at most root + curr bits fill the share, none with this front is longer. */
  lemma RoomyShare(lens: seq<int>, root: nat, k: nat, curr: nat)
    requires k < Total(lens) && root < Size(lens, k) && root + curr <= MAXBITS && Fit(lens)
    requires From(lens, k) == Front(lens, root, k) * Pow2(MAXBITS - root)
    requires Upto(lens, MAXBITS, root + curr) >= From(lens, k) + Pow2(MAXBITS - root)
    ensures Roomy(lens, root, Low(Huff(lens, k), root), curr)
  {
    hide Pow2;
    hide Rev;
    hide Huff;
    hide Size;
    hide From;
    hide Fit;
    hide Upto;
    hide Front;
    forall j | 0 <= j < Total(lens) && Size(lens, j) > root && Low(Huff(lens, j), root) == Low(Huff(lens, k), root)
      ensures Size(lens, j) <= root + curr
    {
      IndexIsFront(lens, root, j);
      IndexIsFront(lens, root, k);
      RevInjective(Front(lens, root, j), Front(lens, root, k), root);
      FrontIs(lens, root, j);
      DivMod(From(lens, j), Pow2(MAXBITS - root));
      DivideFrom(lens, j, root + curr);
    }
  }

  lemma DivideFrom(lens: seq<int>, k: nat, n: nat)
    requires k < Total(lens) && n <= MAXBITS
    ensures Size(lens, k) > n ==> From(lens, k) >= Upto(lens, MAXBITS, n)
    ensures Size(lens, k) <= n ==> To(lens, k) <= Upto(lens, MAXBITS, n)
  {
    Divide(lens, MAXBITS, k, n);
  }

  /** What the codes from k on, of at most n bits, reach to. */
  ghost function Reach(lens: seq<int>, k: nat, n: nat): (p: nat)
    requires k < Total(lens) && n <= MAXBITS
  {
    if n < Size(lens, k) then From(lens, k) else Upto(lens, MAXBITS, n)
  }

  lemma ReachStep(lens: seq<int>, k: nat, n: nat)
    requires k < Total(lens) && Size(lens, k) <= n <= MAXBITS
    ensures Reach(lens, k, n) == Reach(lens, k, n - 1) + ToCome(lens, MAXBITS, k, n) * Pow2(MAXBITS - n)
  {
    hide Upto;
    hide ToCome;
    hide Order;
    var l, j := Standing(lens, MAXBITS, k);
    StartIs(lens, MAXBITS, k, l, j);
    ToComeIs(lens, MAXBITS, k, l, j, n);
    UptoStep(lens, MAXBITS, n);
    if n == l {
      Distribute2(ToCome(lens, MAXBITS, k, n), j, Pow2(MAXBITS - n));
    }
  }
}
