/** The bucket-header bits of fallbackSort: one bit an index, 32 to a word, and the scans that
    skip whole words. */
module BucketBits {

  function Mask(k: nat): bv32
    requires k < 32
  {
    1 << (k as bv5)
  }

  function Bit(w: bv32, k: nat): bool
    requires k < 32
  {
    w & Mask(k) != 0
  }

  /** The bit for index z. */
  predicate IsSet(t: seq<bv32>, z: int)
    requires 0 <= z < 32 * |t|
  {
    Bit(t[z / 32], z % 32)
  }

  lemma MaskPair(w: bv32, mj: bv32, mk: bv32, j: bv5, k: bv5)
    requires mj == 1 << j && mk == 1 << k
    ensures (w | mj) & mk != 0 <==> w & mk != 0 || mj == mk
    ensures (w & !mj) & mk != 0 <==> w & mk != 0 && mj != mk
  {
  }

  lemma ShiftInjective(j: bv5, k: bv5)
    requires (1 as bv32) << j == 1 << k
    ensures j == k
  {
  }

  lemma MaskInjective(j: nat, k: nat)
    requires j < 32 && k < 32 && Mask(j) == Mask(k)
    ensures j == k
  {
    hide Mask;
    var jb := ShiftOf(j);
    var kb := ShiftOf(k);
    ShiftInjective(jb, kb);
  }

  lemma Position(k: nat)
    requires k < 32
    ensures (k as bv5) as int == k
  {
  }

  /** The shift count as a bit vector. */
  lemma ShiftOf(k: nat) returns (b: bv5)
    requires k < 32
    ensures Mask(k) == 1 << b && b as int == k
  {
    Position(k);
    b := k as bv5;
  }

  lemma MaskShift(k: nat) returns (b: bv5)
    requires k < 32
    ensures Mask(k) == 1 << b
  {
    b := ShiftOf(k);
  }

  lemma WordBits(w: bv32, j: nat, k: nat)
    requires j < 32 && k < 32
    ensures Bit(w | Mask(j), k) <==> Bit(w, k) || j == k
    ensures Bit(w & !Mask(j), k) <==> Bit(w, k) && j != k
  {
    hide Mask;
    MaskedWord(w, j, k);
    if Mask(j) == Mask(k) {
      MaskInjective(j, k);
    }
  }

  lemma MaskedWord(w: bv32, j: nat, k: nat)
    requires j < 32 && k < 32
    ensures (w | Mask(j)) & Mask(k) != 0 <==> w & Mask(k) != 0 || Mask(j) == Mask(k)
    ensures (w & !Mask(j)) & Mask(k) != 0 <==> w & Mask(k) != 0 && Mask(j) != Mask(k)
  {
    hide Mask;
    var jb := MaskShift(j);
    var kb := MaskShift(k);
    MaskPair(w, Mask(j), Mask(k), jb, kb);
  }

  lemma FullWord(k: bv5)
    ensures 0xffff_ffff & (1 << k) != (0 as bv32) && 0x0000_0000 & (1 << k) == (0 as bv32)
  {
  }

  /** A word of ones has every bit set, a word of zeros none. */
  lemma UniformWord(w: bv32, k: nat)
    requires k < 32
    ensures w == 0xffff_ffff ==> Bit(w, k)
    ensures w == 0x0000_0000 ==> !Bit(w, k)
  {
    hide Mask;
    var b := MaskShift(k);
    FullWord(b);
  }

  /** t is u except for the bit at z. */
  ghost predicate OneBit(t: seq<bv32>, u: seq<bv32>, z: int, v: bool) {
    |t| == |u| && 0 <= z < 32 * |t| &&
    forall y :: 0 <= y < 32 * |t| ==> (IsSet(t, y) <==> if y == z then v else IsSet(u, y))
  }

  /** The word with bit k set or cleared. */
  function With(w: bv32, k: nat, v: bool): bv32
    requires k < 32
  {
    if v then w | Mask(k) else w & !Mask(k)
  }

  lemma WithBits(w: bv32, k: nat, v: bool, j: nat)
    requires j < 32 && k < 32
    ensures Bit(With(w, k, v), j) <==> if j == k then v else Bit(w, j)
  {
    hide Bit;
    hide Mask;
    WordBits(w, k, j);
  }

  lemma UpdateWord(u: seq<bv32>, z: int, v: bool)
    requires 0 <= z < 32 * |u|
    ensures OneBit(u[z / 32 := With(u[z / 32], z % 32, v)], u, z, v)
  {
    hide Bit;
    hide With;
    var t := u[z / 32 := With(u[z / 32], z % 32, v)];
    forall y | 0 <= y < 32 * |t| ensures IsSet(t, y) <==> if y == z then v else IsSet(u, y) {
      WithBits(u[z / 32], z % 32, v, y % 32);
    }
  }

  /** SET_BH */
  method SetBit(t: array<bv32>, z: int)
    requires 0 <= z < 32 * t.Length
    modifies t
    ensures OneBit(t[..], old(t[..]), z, true)
  {
    hide *;
    UpdateWord(t[..], z, true);
    t[z / 32] := With(t[z / 32], z % 32, true);
  }

  /** CLEAR_BH */
  method ClearBit(t: array<bv32>, z: int)
    requires 0 <= z < 32 * t.Length
    modifies t
    ensures OneBit(t[..], old(t[..]), z, false)
  {
    hide *;
    UpdateWord(t[..], z, false);
    t[z / 32] := With(t[z / 32], z % 32, false);
  }

  /** Bits k0..k-1 are all v. */
  ghost predicate Run(t: seq<bv32>, k0: int, k: int, v: bool) {
    0 <= k0 <= k <= 32 * |t| && forall y :: k0 <= y < k ==> IsSet(t, y) == v
  }

  lemma RunStep(t: seq<bv32>, k0: int, k: int, v: bool)
    requires Run(t, k0, k, v) && k < 32 * |t| && IsSet(t, k) == v
    ensures Run(t, k0, k + 1, v)
  {
  }

  lemma RunWord(t: seq<bv32>, k0: int, k: int, v: bool)
    requires Run(t, k0, k, v) && k % 32 == 0 && k / 32 < |t|
    requires t[k / 32] == if v then 0xffff_ffff else 0
    ensures Run(t, k0, k + 32, v)
  {
    forall y | k0 <= y < k + 32 ensures IsSet(t, y) == v {
      if y >= k {
        assert y / 32 == k / 32;
        UniformWord(t[k / 32], y % 32);
      }
    }
  }

  lemma RunStops(t: seq<bv32>, k0: int, k: int, v: bool, e: int)
    requires Run(t, k0, k, v) && k0 <= e < 32 * |t| && IsSet(t, e) != v
    ensures k <= e
  {
  }

  /** The scan of the main loop: the first index from k0 on whose bit is not v. Single steps to
      a word boundary, whole words while they are uniform, then single steps. The index e, where
      the bit is known to differ, bounds it. */
  method SkipRun(t: array<bv32>, k0: int, v: bool, ghost e: int) returns (k: int)
    requires 0 <= k0 <= e < 32 * t.Length && IsSet(t[..], e) != v
    ensures k <= e && Run(t[..], k0, k, v) && IsSet(t[..], k) != v
  {
    hide Bit;
    hide Run;
    k := k0;
    RunStart(t[..], k0, v);
    while Bit(t[k / 32], k % 32) == v && k % 32 != 0
      invariant k0 <= k <= e && Run(t[..], k0, k, v)
      decreases e - k
    {
      RunStep(t[..], k0, k, v);
      k := k + 1;
      RunStops(t[..], k0, k, v, e);
    }
    if Bit(t[k / 32], k % 32) == v {
      while t[k / 32] == if v then 0xffff_ffff else 0
        invariant k0 <= k <= e && Run(t[..], k0, k, v) && k % 32 == 0
        decreases e - k
      {
        RunWord(t[..], k0, k, v);
        k := k + 32;
        RunStops(t[..], k0, k, v, e);
      }
      while Bit(t[k / 32], k % 32) == v
        invariant k0 <= k <= e && Run(t[..], k0, k, v)
        decreases e - k
      {
        RunStep(t[..], k0, k, v);
        k := k + 1;
        RunStops(t[..], k0, k, v, e);
      }
    }
  }

  lemma RunStart(t: seq<bv32>, k0: int, v: bool)
    requires 0 <= k0 <= 32 * |t|
    ensures Run(t, k0, k0, v)
  {
  }
}
