/** crc32.c, crc32_combine: the checksum of two pieces of data from the checksum of each and the length
    of the second, by matrices over the two-element field. */
module Crc32Combine {
  import opened Words32
  import opened Crc32

  /* ---------- matrices ---------- */

  /** The sum of the rows picked by the bits of vec, the lowest bit picking row k. */
  ghost function Product(mat: seq<bv32>, vec: bv32, k: nat): bv32
    requires |mat| == 32 && k <= 32
    decreases 32 - k
  {
    if k == 32 then 0 else Xor(Picked(mat, vec, k), Product(mat, Half(vec), k + 1))
  }

  ghost function Picked(mat: seq<bv32>, vec: bv32, k: nat): bv32
    requires k < |mat|
  {
    if Odd(vec) then mat[k] else 0
  }

  lemma ProductAt(mat: seq<bv32>, vec: bv32, k: nat)
    requires |mat| == 32 && k < 32
    ensures Product(mat, vec, k) == Xor(Picked(mat, vec, k), Product(mat, Half(vec), k + 1))
  {
  }

  lemma PickedLinear(mat: seq<bv32>, a: bv32, b: bv32, k: nat)
    requires k < |mat|
    ensures Picked(mat, Xor(a, b), k) == Xor(Picked(mat, a, k), Picked(mat, b, k))
  {
    hide Xor;
    hide Odd;
    hide Half;
    HalfXor(a, b);
    Cancels(mat[k]);
    Zero(mat[k]);
    Zero(0);
  }

  lemma {:induction false} ProductLinear(mat: seq<bv32>, a: bv32, b: bv32, k: nat)
    requires |mat| == 32 && k <= 32
    ensures Product(mat, Xor(a, b), k) == Xor(Product(mat, a, k), Product(mat, b, k))
    decreases 32 - k
  {
    hide Xor;
    hide Half;
    hide Picked;
    if k == 32 {
      Zero(0);
    } else {
      HalfXor(a, b);
      PickedLinear(mat, a, b, k);
      ProductLinear(mat, Half(a), Half(b), k + 1);
      Regroup(Picked(mat, a, k), Picked(mat, b, k), Product(mat, Half(a), k + 1), Product(mat, Half(b), k + 1));
    }
  }

  lemma {:induction false} ProductZero(mat: seq<bv32>, k: nat)
    requires |mat| == 32 && k <= 32
    ensures Product(mat, 0, k) == 0
    decreases 32 - k
  {
    hide Xor;
    if k < 32 {
      ProductZero(mat, k + 1);
      Zero(0);
    }
  }

  ghost function Halves(c: bv32, n: nat): bv32
    decreases n
  {
    if n == 0 then c else Halves(Half(c), n - 1)
  }

  lemma {:induction false} HalvesMore(c: bv32, n: nat, m: nat)
    ensures Halves(Halves(c, n), m) == Halves(c, n + m)
    decreases n
  {
    hide Half;
    if n > 0 { HalvesMore(Half(c), n - 1, m); }
  }

  lemma HalvesByte(c: bv32)
    ensures Halves(c, 8) == Down8(c)
  {
    hide Half;
    EightHalves(c);
  }

  lemma EightHalves(c: bv32)
    ensures Half(Half(Half(Half(Half(Half(Half(Half(c)))))))) == Down8(c)
  {
  }

  lemma AllDown(c: bv32)
    ensures Down8(Down8(Down8(Down8(c)))) == 0
  {
  }

  /** Nothing is left of a word after thirty-two halvings. */
  lemma HalvesAll(c: bv32, n: nat)
    requires n >= 32
    ensures Halves(c, n) == 0
  {
    hide Halves;
    hide Down8;
    HalvesByte(c);
    HalvesByte(Down8(c));
    HalvesByte(Down8(Down8(c)));
    HalvesByte(Down8(Down8(Down8(c))));
    HalvesMore(c, 8, 8);
    HalvesMore(c, 16, 8);
    HalvesMore(c, 24, 8);
    AllDown(c);
    HalvesMore(c, 32, n - 32);
    HalvesZero(n - 32);
  }

  lemma {:induction false} HalvesZero(n: nat)
    ensures Halves(0, n) == 0
    decreases n
  {
    if n > 0 { HalvesZero(n - 1); }
  }

  /** gf2_matrix_times */
  method Times(mat: array<bv32>, vec: bv32) returns (sum: bv32)
    requires mat.Length == 32
    ensures sum == Product(mat[..], vec, 0)
  {
    hide *;
    sum := 0;
    var v, k := vec, 0;
    Zero(Product(mat[..], vec, 0));
    HalvesNone(vec);
    while v != 0
      invariant 0 <= k <= 32 && v == Halves(vec, k) && Product(mat[..], vec, 0) == Xor(sum, Product(mat[..], v, k))
      decreases 32 - k
    {
      if k == 32 { HalvesAll(vec, 32); }
      ProductAt(mat[..], v, k);
      Associates(sum, Picked(mat[..], v, k), Product(mat[..], Half(v), k + 1));
      PickedIs(mat[..], v, k);
      HalvesMore(vec, k, 1);
      HalvesOne(v);
      Zero(sum);
      if Odd(v) { sum := Xor(sum, mat[k]); }
      v := Half(v);
      k := k + 1;
    }
    ProductZero(mat[..], k);
    Zero(sum);
  }

  lemma HalvesNone(c: bv32)
    ensures Halves(c, 0) == c
  {
  }

  lemma HalvesOne(c: bv32)
    ensures Halves(c, 1) == Half(c)
  {
    hide Half;
    HalvesNone(Half(c));
  }

  lemma PickedIs(mat: seq<bv32>, vec: bv32, k: nat)
    requires k < |mat|
    ensures Picked(mat, vec, k) == if Odd(vec) then mat[k] else 0
  {
  }

  /* ---------- operators for zero bits ---------- */

  /** The matrix does what n zero bits do to the register. */
  ghost predicate Operator(mat: seq<bv32>, n: nat) {
    |mat| == 32 && forall v: bv32 :: Product(mat, v, 0) == Shifts(v, n)
  }

  ghost predicate Squared(square: seq<bv32>, mat: seq<bv32>, n: nat) {
    |mat| == 32 && n <= |square| && n <= 32 && forall i :: 0 <= i < n ==> square[i] == Product(mat, mat[i], 0)
  }

  /** A matrix whose rows are the products of another with its own rows applies that one twice. */
  lemma {:induction false} SquareTwice(square: seq<bv32>, mat: seq<bv32>, v: bv32, k: nat)
    requires |square| == 32 && Squared(square, mat, 32) && k <= 32
    ensures Product(square, v, k) == Product(mat, Product(mat, v, k), 0)
    decreases 32 - k
  {
    hide Xor;
    hide Half;
    ProductZero(mat, 0);
    if k < 32 {
      SquareTwice(square, mat, Half(v), k + 1);
      ProductLinear(mat, Picked(mat, v, k), Product(mat, Half(v), k + 1), 0);
      assert square[k] == Product(mat, mat[k], 0);
    }
  }

  lemma SquareOperator(square: seq<bv32>, mat: seq<bv32>, n: nat)
    requires |square| == 32 && Squared(square, mat, 32) && Operator(mat, n)
    ensures Operator(square, 2 * n)
  {
    hide Product;
    hide Squared;
    hide Shifts;
    forall v: bv32 ensures Product(square, v, 0) == Shifts(v, 2 * n) {
      SquareTwice(square, mat, v, 0);
      ShiftsMore(v, n, n);
    }
  }

  /** gf2_matrix_square */
  method Square(square: array<bv32>, mat: array<bv32>, ghost n: nat)
    requires square != mat && square.Length == mat.Length == 32 && Operator(mat[..], n)
    modifies square
    ensures Operator(square[..], 2 * n)
  {
    hide Product;
    hide Operator;
    var i := 0;
    ghost var m := mat[..];
    while i < 32
      invariant 0 <= i <= 32 && mat[..] == m && Squared(square[..], m, i)
    {
      square[i] := Times(mat, mat[i]);
      i := i + 1;
    }
    SquareOperator(square[..], m, n);
  }

  function Double(c: bv32): bv32 { c << 1 }

  ghost function Up(c: bv32, n: nat): bv32
    decreases n
  {
    if n == 0 then c else Up(Double(c), n - 1)
  }

  lemma DoubleXor(a: bv32, b: bv32)
    ensures Double(Xor(a, b)) == Xor(Double(a), Double(b))
  {
  }

  lemma {:induction false} UpLinear(a: bv32, b: bv32, n: nat)
    ensures Up(Xor(a, b), n) == Xor(Up(a, n), Up(b, n))
    decreases n
  {
    hide Xor;
    hide Double;
    if n > 0 {
      DoubleXor(a, b);
      UpLinear(Double(a), Double(b), n - 1);
    }
  }

  lemma {:induction false} UpLast(c: bv32, n: nat)
    ensures Up(c, n + 1) == Double(Up(c, n)) && Up(c, 0) == c
    decreases n
  {
    hide Double;
    if n > 0 { UpLast(Double(c), n - 1); }
  }

  lemma {:induction false} UpZero(n: nat)
    ensures Up(0, n) == 0
    decreases n
  {
    if n > 0 { UpZero(n - 1); }
  }

  lemma LowAndRest(c: bv32)
    ensures Odd(c) ==> c == Xor(1, Double(Half(c)))
    ensures !Odd(c) ==> c == Double(Half(c))
  {
  }

  /** The rows that move each bit down by one, and the polynomial for the bit that drops out. */
  ghost predicate OneZero(mat: seq<bv32>, n: nat) {
    n <= |mat| == 32 && (n > 0 ==> mat[0] == POLY) && forall i :: 1 <= i < n ==> mat[i] == Up(1, i - 1)
  }

  lemma {:induction false} RowsMoveUp(mat: seq<bv32>, w: bv32, k: nat)
    requires OneZero(mat, 32) && 1 <= k <= 32 && Halves(w, 32 - k) == 0
    ensures Product(mat, w, k) == Up(w, k - 1)
    decreases 32 - k
  {
    hide Xor;
    hide Half;
    hide Double;
    hide Odd;
    if k == 32 {
      HalvesNone(w);
      UpZero(31);
    } else {
      RowsMoveUp(mat, Half(w), k + 1);
      UpIs(Half(w), k);
      LowAndRest(w);
      UpLinear(1, Double(Half(w)), k - 1);
      Zero(Up(w, k - 1));
      assert mat[k] == Up(1, k - 1);
    }
  }

  lemma UpIs(c: bv32, k: nat)
    requires k >= 1
    ensures Up(c, k) == Up(Double(c), k - 1)
  {
    hide Double;
  }

  lemma OneZeroShifts(mat: seq<bv32>, v: bv32)
    requires OneZero(mat, 32)
    ensures Product(mat, v, 0) == Shift(v)
  {
    hide Xor;
    hide Half;
    hide Odd;
    HalvesAll(v, 32);
    RowsMoveUp(mat, Half(v), 1);
    UpNone(Half(v));
    Zero(Half(v));
  }

  lemma UpNone(c: bv32)
    ensures Up(c, 0) == c
  {
  }

  lemma OneZeroOperator(mat: seq<bv32>)
    requires OneZero(mat, 32)
    ensures Operator(mat, 1)
  {
    hide Up;
    hide Product;
    hide Shift;
    forall v: bv32 ensures Product(mat, v, 0) == Shifts(v, 1) {
      OneZeroShifts(mat, v);
      NoShifts(Shift(v));
    }
  }

  /** The operator for one zero bit. */
  method MakeOne(odd: array<bv32>)
    requires odd.Length == 32
    modifies odd
    ensures Operator(odd[..], 1)
  {
    hide *;
    OneZeroStart(odd[..][0 := POLY]);
    odd[0] := POLY;
    assert odd[..] == old(odd[..])[0 := POLY];
    var row: bv32 := 1;
    var n := 1;
    UpNone(1);
    while n < 32
      invariant 1 <= n <= 32 && OneZero(odd[..], n) && row == Up(1, n - 1)
    {
      ghost var was := odd[..];
      OneZeroNext(was, n);
      odd[n] := row;
      assert odd[..] == was[n := row];
      UpLast(1, n - 1);
      row := Double(row);
      n := n + 1;
    }
    OneZeroOperator(odd[..]);
  }

  lemma OneZeroStart(mat: seq<bv32>)
    requires |mat| == 32 && mat[0] == POLY
    ensures OneZero(mat, 1)
  {
  }

  lemma OneZeroNext(mat: seq<bv32>, n: nat)
    requires 1 <= n < 32 && OneZero(mat, n)
    ensures OneZero(mat[n := Up(1, n - 1)], n + 1)
  {
    hide Up;
  }

  /* ---------- combining ---------- */

  /** What the checksum of len2 bytes after a first piece takes from both. */
  ghost function Combined(crc1: bv32, crc2: bv32, len2: int): bv32 {
    if len2 <= 0 then crc1 else Xor(Shifts(crc1, 8 * len2), crc2)
  }

  lemma Halved(crc: bv32, len: nat, p: nat)
    requires len > 0
    ensures len % 2 == 1 ==> Shifts(crc, 2 * p * len) == Shifts(Shifts(crc, 2 * p), 2 * (2 * p) * (len / 2))
    ensures len % 2 == 0 ==> Shifts(crc, 2 * p * len) == Shifts(crc, 2 * (2 * p) * (len / 2))
  {
    hide *;
    HalvedLength(len, p);
    ShiftsMore(crc, 2 * p, 2 * (2 * p) * (len / 2));
  }

  lemma HalvedLength(len: nat, p: nat)
    ensures 2 * p * len == 2 * p * (len % 2) + 2 * (2 * p) * (len / 2)
  {
    var h := len / 2;
    assert len == 2 * h + len % 2;
    assert 2 * p * (2 * h) == 2 * (2 * p) * h;
  }

  lemma OperatorAt(mat: seq<bv32>, n: nat, v: bv32)
    requires Operator(mat, n)
    ensures |mat| == 32 && Product(mat, v, 0) == Shifts(v, n)
  {
    hide Product;
    hide Shifts;
  }

  /** One turn of the loop: the operator for twice as many zeros, applied if the lowest bit of the
      length asks for it. */
  method Step(next: array<bv32>, mat: array<bv32>, crc: bv32, len: nat, ghost p: nat) returns (crc': bv32, len': nat)
    requires next != mat && next.Length == mat.Length == 32 && Operator(mat[..], p) && len > 0
    modifies next
    ensures Operator(next[..], 2 * p) && len' == len / 2
    ensures Shifts(crc', 2 * (2 * p) * len') == Shifts(crc, 2 * p * len)
  {
    hide *;
    Square(next, mat, p);
    Halved(crc, len, p);
    OperatorAt(next[..], 2 * p, crc);
    crc' := crc;
    if len % 2 == 1 { crc' := Times(next, crc); }
    len' := len / 2;
  }

  /** crc32_combine_ */
  method Combine(crc1: bv32, crc2: bv32, len2: int) returns (crc: bv32)
    ensures crc == Combined(crc1, crc2, len2)
  {
    hide *;
    CombinedIs(crc1, crc2, len2);
    if len2 <= 0 { return crc1; }
    var even, odd := new bv32[32], new bv32[32];
    MakeOne(odd);
    Square(even, odd, 1);
    Square(odd, even, 2);
    ghost var p: nat := 4;
    var len: nat := len2;
    crc := crc1;
    while true
      invariant len > 0 && Operator(odd[..], p) && Shifts(crc, 2 * p * len) == Shifts(crc1, 8 * len2)
      decreases len
    {
      crc, len := Step(even, odd, crc, len, p);
      if len == 0 { break; }
      crc, len := Step(odd, even, crc, len, 2 * p);
      p := 4 * p;
      if len == 0 { break; }
    }
    NoShifts(crc);
    crc := Xor(crc, crc2);
  }

  lemma CombinedIs(crc1: bv32, crc2: bv32, len2: int)
    ensures Combined(crc1, crc2, len2) == if len2 <= 0 then crc1 else Xor(Shifts(crc1, 8 * len2), crc2)
  {
    hide Xor;
    hide Shifts;
  }

  /* ---------- what combining means ---------- */

  lemma {:induction false} FedConcat(c: bv32, a: seq<bv8>, b: seq<bv8>)
    ensures Fed(c, a + b) == Fed(Fed(c, a), b)
    decreases |a|
  {
    hide Feed;
    if a == [] {
      assert a + b == b;
    } else {
      assert (a + b)[1..] == a[1..] + b;
      FedConcat(Feed(c, a[0]), a[1..], b);
    }
  }

  lemma FeedLinear(x: bv32, y: bv32, b: bv8)
    ensures Feed(Xor(x, y), b) == Xor(Shifts(x, 8), Feed(y, b))
  {
    hide *;
    FeedIs(Xor(x, y), b);
    FeedIs(y, b);
    Associates(x, y, Word(b));
    ShiftsLinear(x, Xor(y, Word(b)), 8);
  }

  /** What was in the register before the bytes is shifted past them. */
  lemma {:induction false} FedLinear(x: bv32, y: bv32, s: seq<bv8>)
    ensures Fed(Xor(x, y), s) == Xor(Shifts(x, 8 * |s|), Fed(y, s))
    decreases |s|
  {
    hide Feed;
    hide Xor;
    hide Shift;
    hide Shifts;
    if s == [] {
      NoShifts(x);
    } else {
      FeedLinear(x, y, s[0]);
      FedLinear(Shifts(x, 8), Feed(y, s[0]), s[1..]);
      ShiftsMore(x, 8, 8 * |s[1..]|);
    }
  }

  lemma NotIsXor(c: bv32)
    ensures Not(c) == Xor(c, Not(0)) && Not(Not(c)) == c
  {
  }

  /** A checksum brought up to date piece by piece is that of the whole. */
  lemma UpdatedConcat(crc: bv32, a: seq<bv8>, b: seq<bv8>)
    ensures Updated(crc, a + b) == Updated(Updated(crc, a), b)
  {
    hide *;
    UpdatedIs(crc, a + b);
    UpdatedIs(crc, a);
    UpdatedIs(Updated(crc, a), b);
    NotIsXor(Fed(Not(crc), a));
    FedConcat(Not(crc), a, b);
  }

  /** Combining the checksums of two pieces gives the checksum of one after the other. */
  lemma CombinedConcat(a: seq<bv8>, b: seq<bv8>)
    ensures Combined(Updated(0, a), Updated(0, b), |b|) == Updated(0, a + b)
  {
    hide *;
    var ones := Not(0);
    var fa := Fed(ones, a);
    UpdatedConcat(0, a, b);
    CombinedIs(Updated(0, a), Updated(0, b), |b|);
    if b == [] {
      assert a + b == a;
    } else {
      UpdatedIs(0, a);
      UpdatedIs(0, b);
      UpdatedIs(Updated(0, a), b);
      // the register before b is crc1 with its bits turned
      NotIsXor(Updated(0, a));
      FedLinear(Updated(0, a), ones, b);
      NotIsXor(Xor(Shifts(Updated(0, a), 8 * |b|), Fed(ones, b)));
      NotIsXor(Fed(ones, b));
      Associates(Shifts(Updated(0, a), 8 * |b|), Fed(ones, b), ones);
    }
  }
}
