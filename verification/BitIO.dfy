/** The bit buffers of the compressor (bsW) and of the decompressor (GET_BITS). */
module BitIO {
  import opened ByteSeq
  import opened Bits

  /** The decompressor's side: bsBuff holds, in its low bsLive bits, input taken but not used. */
  class BitReader {
    const input: seq<int>
    var pos: int
    var bsBuff: int
    var bsLive: int

    // the bits of a stream of which the input is only the beginning
    ghost const more: seq<int>

    ghost predicate Valid()
      reads this
    {
      AreBytes(input) && 0 <= pos <= |input| && 0 <= bsBuff < 0x1_0000_0000 && 0 <= bsLive <= 32 && IsBits(more) &&
      8 * pos >= bsLive && Present() == BytesBits(input)[8 * pos - bsLive..]
    }

    /** All bits at hand and not yet delivered. */
    ghost function Present(): (s: seq<int>)
      requires 0 <= pos <= |input| && 0 <= bsBuff && 0 <= bsLive && AreBytes(input)
      reads this
    {
      BitsOf(bsBuff, bsLive) + BytesBits(input[pos..])
    }

    /** All bits not yet delivered, also those that are missing. */
    ghost function Remaining(): (s: seq<int>)
      requires Valid()
      reads this
    {
      Present() + more
    }

    /** Fewer bits are at hand than some read takes. */
    ghost predicate Spent()
      requires Valid()
      reads this
    {
      |Remaining()| < 24 + |more|
    }

    constructor (bytes: seq<int>, ghost more: seq<int>)
      requires AreBytes(bytes) && IsBits(more)
      ensures Valid() && Remaining() == BytesBits(bytes) + more && this.more == more && input == bytes
    {
      input := bytes;
      this.more := more;
      pos, bsBuff, bsLive := 0, 0, 0;
      new;
      assert input[0..] == bytes && [] + BytesBits(bytes) == BytesBits(bytes);
    }

    /** Take one more input byte into the buffer. */
    method PullByte()
      requires Valid() && pos < |input| && bsLive <= 24
      modifies this
      ensures Valid() && pos == old(pos) + 1 && bsLive == old(bsLive) + 8
      ensures Present() == old(Present()) && Remaining() == old(Remaining())
    {
      hide BitsOf;
      hide BytesBits;
      PullBits(bsBuff, bsLive, input, pos);
      bsBuff := (bsBuff * 256 + input[pos]) % 0x1_0000_0000;
      bsLive := bsLive + 8;
      pos := pos + 1;
    }

    /** GET_BITS: n bits, most significant first. Without enough input nothing is used up, and the
        call can be repeated when there is more. */
    method GetBits(n: int) returns (ok: bool, v: int)
      requires Valid() && 0 <= n <= 25
      modifies this
      ensures Valid() && (ok <==> n + |more| <= |old(Remaining())|)
      ensures ok ==> IsBits(old(Remaining())[..n]) && v == Value(old(Remaining())[..n])
      ensures ok ==> Remaining() == old(Remaining())[n..]
      ensures !ok ==> Remaining() == old(Remaining())
    {
      hide BitsOf;
      hide BytesBits;
      hide Value;
      hide Pow2;
      ghost var rest, had := Remaining(), Present();
      while bsLive < n
        invariant Valid() && Remaining() == rest && Present() == had
        decreases n - bsLive
      {
        if pos == |input| {
          assert input[pos..] == [];
          return false, 0;
        }
        PullByte();
      }
      ReadBits(bsBuff, bsLive, n, BytesBits(input[pos..]));
      assert rest[..n] == had[..n] && rest[n..] == had[n..] + more;
      assert BytesBits(input)[8 * pos - bsLive..][n..] == BytesBits(input)[8 * pos - bsLive + n..];
      v := bsBuff / Pow2(bsLive - n) % Pow2(n);
      bsLive := bsLive - n;
      ok := true;
    }
  }

  lemma IsSpent(r: BitReader, n: nat)
    requires r.Valid() && n <= 24 && |r.Remaining()| < n + |r.more|
    ensures r.Spent()
  {
    hide BitReader.Valid;
    hide BitReader.Remaining;
  }

  /** What is left is the end of what there was at first. */
  lemma RemainingIsEnd(r: BitReader)
    requires r.Valid()
    ensures (forall i :: 0 <= i < |r.input| ==> 0 <= r.input[i] < 256) &&
      |r.more| <= |r.Remaining()| <= |BytesBits(r.input) + r.more|
    ensures r.Remaining() == (BytesBits(r.input) + r.more)[|BytesBits(r.input) + r.more| - |r.Remaining()|..]
  {
    hide BytesBits;
    hide BitsOf;
    var off := 8 * r.pos - r.bsLive;
    assert (BytesBits(r.input) + r.more)[off..] == BytesBits(r.input)[off..] + r.more;
  }

  lemma ReadBits(b: int, l: int, n: int, t: seq<int>)
    requires 0 <= b && 0 <= n <= l && IsBits(t)
    ensures IsBits((BitsOf(b, l) + t)[..n]) && Value((BitsOf(b, l) + t)[..n]) == b / Pow2(l - n) % Pow2(n)
    ensures (BitsOf(b, l) + t)[n..] == BitsOf(b, l - n) + t
  {
    hide BitsOf;
    hide Value;
    hide Pow2;
    BitsSplit(b, l, n);
    ValueOfLow(b / Pow2(l - n), n);
    assert (BitsOf(b, l) + t)[..n] == BitsOf(b, l)[..n];
    assert (BitsOf(b, l) + t)[n..] == BitsOf(b, l)[n..] + t;
  }

  lemma PullBits(b: int, l: int, input: seq<int>, p: int)
    requires 0 <= b < 0x1_0000_0000 && 0 <= l <= 24 && AreBytes(input) && 0 <= p < |input|
    ensures BitsOf((b * 256 + input[p]) % 0x1_0000_0000, l + 8) + BytesBits(input[p + 1..]) ==
            BitsOf(b, l) + BytesBits(input[p..])
  {
    Pow2Constants();
    hide BitsOf;
    hide BytesBits;
    hide Pow2;
    BitsOfMod(b * 256 + input[p], l + 8, 32);
    BitsAppend(b, l, input[p], 8);
    BytesFirst(input[p..]);
    assert input[p..][1..] == input[p + 1..];
    assert BitsOf(b, l) + BitsOf(input[p], 8) + BytesBits(input[p + 1..]) ==
           BitsOf(b, l) + (BitsOf(input[p], 8) + BytesBits(input[p + 1..]));
  }

  /** The compressor's side: the upper bsLive bits of bsBuff are pending, the rest of it is zero. */
  class BitWriter {
    var zbits: seq<int>
    var bsBuff: int
    var bsLive: int
    ghost var gone: seq<int>  // bytes already taken out of zbits

    ghost predicate Valid()
      reads this
    {
      AreBytes(gone + zbits) && 0 <= bsBuff < 0x1_0000_0000 && 0 <= bsLive <= 32 && bsBuff % Pow2(32 - bsLive) == 0
    }

    /** All bits written so far. */
    ghost function Written(): (s: seq<int>)
      requires Valid()
      reads this
    {
      BytesBits(gone + zbits) + BitsOf(bsBuff / Pow2(32 - bsLive), bsLive)
    }

    /** The bytes written, in buffer or taken out, come first. */
    lemma BytesWritten()
      requires Valid()
      ensures AreBytes(gone + zbits) && (forall i :: 0 <= i < |gone + zbits| ==> 0 <= (gone + zbits)[i] < 256)
      ensures BytesBits(gone + zbits) <= Written()
    {
      hide BytesBits;
      hide BitsOf;
    }

    constructor ()
      ensures Valid() && Written() == [] && zbits == [] && gone == []
    {
      zbits, gone := [], [];
      bsBuff, bsLive := 0, 0;
      new;
      EmptyBuffer();
    }

    /** A new block starts with an empty output buffer (numZ = 0); bits not yet in a byte stay. */
    method Reset()
      requires Valid()
      modifies this`zbits, this`gone
      ensures Valid() && Written() == old(Written()) && zbits == [] && gone == old(gone + zbits)
    {
      hide BytesBits;
      gone := gone + zbits;
      zbits := [];
      assert gone + zbits == old(gone + zbits);
    }

    /** Pass on the top byte. */
    method EmitByte()
      requires Valid() && bsLive >= 8
      modifies this`zbits, this`bsBuff, this`bsLive
      ensures Valid() && bsLive == old(bsLive) - 8 && Written() == old(Written())
    {
      hide BitsOf;
      hide BytesBits;
      hide Pow2;
      EmitBits(bsBuff, bsLive, gone + zbits);
      assert gone + (zbits + [bsBuff / 0x100_0000]) == gone + zbits + [bsBuff / 0x100_0000];
      zbits := zbits + [bsBuff / 0x100_0000];
      bsBuff := bsBuff * 256 % 0x1_0000_0000;
      bsLive := bsLive - 8;
    }

    /** bsW: append the n-bit number v. */
    method W(n: int, v: int)
      requires Valid() && 0 <= n <= 24 && 0 <= v < Pow2(n)
      modifies this`zbits, this`bsBuff, this`bsLive
      ensures Valid() && Written() == old(Written()) + BitsOf(v, n)
    {
      hide BitsOf;
      hide BytesBits;
      hide Pow2;
      while bsLive >= 8
        invariant Valid() && Written() == old(Written())
        decreases bsLive
      {
        EmitByte();
      }
      ghost var x := BitsOf(bsBuff / Pow2(32 - bsLive), bsLive);
      ghost var b' := bsBuff + v * Pow2(32 - bsLive - n);
      AddBits(bsBuff, bsLive, n, v, b');
      bsBuff := OrBits(bsBuff, v, 32 - bsLive - n, n);
      assert bsBuff == b';
      bsLive := bsLive + n;
      assert 32 - bsLive == 32 - (bsLive - n) - n;
      ghost var z := BytesBits(gone + zbits);
      assert z + (x + BitsOf(v, n)) == z + x + BitsOf(v, n);
    }

    /** bsFinishWrite: pass on what is pending, the last byte filled up with zero bits. */
    method Finish() returns (ghost k: nat)
      requires Valid()
      modifies this`zbits, this`bsBuff, this`bsLive
      ensures k < 8 && AreBytes(gone + zbits) && bsLive <= 0 && BytesBits(gone + zbits) == old(Written()) + BitsOf(0, k)
    {
      hide BitsOf;
      hide BytesBits;
      hide Pow2;
      k := 0;
      EndBits(bsBuff / Pow2(32 - bsLive), gone + zbits);
      while bsLive > 0
        invariant bsLive >= 0 ==> k == 0 && Valid() && Written() == old(Written())
        invariant bsLive < 0 ==>
          0 < k < 8 && AreBytes(gone + zbits) && BytesBits(gone + zbits) == old(Written()) + BitsOf(0, k)
        invariant bsLive == 0 ==> BytesBits(gone + zbits) == old(Written()) + BitsOf(0, 0)
        invariant gone == old(gone)
        decreases bsLive
      {
        if bsLive >= 8 {
          EmitByte();
          EndBits(bsBuff / Pow2(32 - bsLive), gone + zbits);
        } else {
          k := 8 - bsLive;
          LastBits(bsBuff, bsLive, gone + zbits);
          assert gone + (zbits + [bsBuff / 0x100_0000]) == gone + zbits + [bsBuff / 0x100_0000];
          zbits := zbits + [bsBuff / 0x100_0000];
          bsBuff := bsBuff * 256 % 0x1_0000_0000;
          bsLive := bsLive - 8;
        }
      }
    }
  }

  /** v << s ORed into a word that is zero from bit s + n down. */
  function OrBits(w: int, v: int, s: nat, n: nat): (w': int)
    requires 0 <= w && 0 <= v < Pow2(n) && w % Pow2(s + n) == 0
  {
    w + v * Pow2(s)
  }

  lemma EmptyBuffer()
    ensures 0 % Pow2(32) == 0 && BytesBits([]) + BitsOf(0 / Pow2(32), 0) == []
  {
    QuotientIs(0, Pow2(32), 0, 0);
  }

  lemma MulMod(x: nat, p: nat, q: nat)
    requires p >= 1 && q >= 1
    ensures (x * p) / (q * p) == x / q && (x * p) % (q * p) == (x % q) * p
  {
    var a, r := x / q, x % q;
    assert x == a * q + r;
    Triple(a, q, r, p);
    RemainderScaled(r, q, p);
    QuotientIs(x * p, q * p, a, r * p);
  }

  lemma Triple(a: int, q: int, r: int, p: int)
    ensures (a * q + r) * p == a * (q * p) + r * p
  {
  }

  lemma RemainderScaled(r: int, q: int, p: int)
    requires 0 <= r < q && p >= 1
    ensures 0 <= r * p < q * p && q * p >= 1
  {
    MulSplit(q, r, p);
    MulAtLeast(q - r, p);
    assert q * p >= p by { MulAtLeast(q, p); }
    assert 0 <= r * p;
  }

  /** The pending number x of a buffer b == x << (32 - l). */
  lemma PendingIs(b: int, l: int)
    requires 0 <= l <= 32 && 0 <= b < 0x1_0000_0000 && b % Pow2(32 - l) == 0
    ensures b == (b / Pow2(32 - l)) * Pow2(32 - l) && 0 <= b / Pow2(32 - l) < Pow2(l)
  {
    Pow2Constants();
    hide Pow2;
    Pow2Sum(l, 32 - l);
    QuotientLess(b, Pow2(l), Pow2(32 - l));
  }

  lemma EmitBits(b: int, l: int, z: seq<int>)
    requires 8 <= l <= 32 && 0 <= b < 0x1_0000_0000 && b % Pow2(32 - l) == 0 && AreBytes(z)
    ensures var top, b' := b / 0x100_0000, b * 256 % 0x1_0000_0000;
      0 <= top < 256 && b' % Pow2(40 - l) == 0 &&
      BytesBits(z + [top]) + BitsOf(b' / Pow2(40 - l), l - 8) == BytesBits(z) + BitsOf(b / Pow2(32 - l), l)
  {
    hide BitsOf;
    hide Pow2;
    PendingIs(b, l);
    Pow2Constants();
    var x, p, q := b / Pow2(32 - l), Pow2(32 - l), Pow2(l - 8);
    Pow2Sum(l - 8, 32 - l);
    MulMod(x, p, q);
    var top := b / 0x100_0000;
    assert top == x / q;
    Pow2Sum(8, 32 - l);
    Pow2Sum(l - 8, 40 - l);
    Swap256(x, p);
    assert b * 256 == x * Pow2(40 - l);
    MulMod(x, Pow2(40 - l), q);
    var b' := b * 256 % 0x1_0000_0000;
    assert b' == (x % q) * Pow2(40 - l);
    QuotientIs(b', Pow2(40 - l), x % q, 0);
    BitsSplit(x, l, 8);
    BitsOfMod(x, l - 8, l - 8);
    OneByte(z, top);
    assert BitsOf(x, l) == BitsOf(top, 8) + BitsOf(x % q, l - 8);
    assert BytesBits(z) + BitsOf(top, 8) + BitsOf(x % q, l - 8) ==
      BytesBits(z) + (BitsOf(top, 8) + BitsOf(x % q, l - 8));
  }

  lemma Swap256(x: int, p: int)
    ensures x * p * 256 == x * (256 * p)
  {
  }

  lemma OneByte(z: seq<int>, t: int)
    requires AreBytes(z) && 0 <= t < 256
    ensures AreBytes(z + [t]) && BytesBits(z + [t]) == BytesBits(z) + BitsOf(t, 8)
  {
    assert (z + [t])[..|z|] == z;
  }

  lemma AddBits(b: int, l: int, n: int, v: int, b': int)
    requires 0 <= l < 8 && 0 <= n <= 24 && 0 <= b < 0x1_0000_0000 && b % Pow2(32 - l) == 0 && 0 <= v < Pow2(n)
    requires b' == b + v * Pow2(32 - l - n)
    ensures 0 <= b' < 0x1_0000_0000 && b' % Pow2(32 - l - n) == 0
    ensures BitsOf(b' / Pow2(32 - l - n), l + n) == BitsOf(b / Pow2(32 - l), l) + BitsOf(v, n)
  {
    hide BitsOf;
    hide Pow2;
    PendingIs(b, l);
    Pow2Constants();
    var x, p := b / Pow2(32 - l), Pow2(32 - l - n);
    Pow2Sum(n, 32 - l - n);
    Collect(x, Pow2(n), v, p);
    var y := x * Pow2(n) + v;
    assert b' == y * p;
    QuotientIs(y * p, p, y, 0);
    BitsAppend(x, l, v, n);
    Pow2Sum(l, n);
    Pow2Sum(l + n, 32 - l - n);
    BoundY(x, Pow2(l), Pow2(n), v);
    MulSplit(Pow2(l + n), y, p);
    MulAtLeast(Pow2(l + n) - y, p);
  }

  lemma Collect(x: int, q: int, v: int, p: int)
    ensures x * (q * p) + v * p == (x * q + v) * p
  {
  }

  lemma BoundY(x: int, a: int, q: int, v: int)
    requires 0 <= x < a && 0 <= v < q
    ensures 0 <= x * q + v < a * q
  {
    MulSplit(a, x, q);
    MulAtLeast(a - x, q);
  }

  lemma EndBits(b: int, z: seq<int>)
    requires AreBytes(z) && 0 <= b
    ensures BytesBits(z) + BitsOf(b, 0) == BytesBits(z) && BytesBits(z) + BitsOf(0, 0) == BytesBits(z)
  {
  }

  lemma LastBits(b: int, l: int, z: seq<int>)
    requires 0 < l < 8 && 0 <= b < 0x1_0000_0000 && b % Pow2(32 - l) == 0 && AreBytes(z)
    ensures var top := b / 0x100_0000;
      0 <= top < 256 && BytesBits(z + [top]) == BytesBits(z) + BitsOf(b / Pow2(32 - l), l) + BitsOf(0, 8 - l)
  {
    hide BitsOf;
    hide Pow2;
    PendingIs(b, l);
    Pow2Constants();
    var x := b / Pow2(32 - l);
    Pow2Sum(8 - l, 24);
    Regroup3(x, Pow2(8 - l), Pow2(24));
    QuotientIs(b, Pow2(24), x * Pow2(8 - l), 0);
    BitsAppend(x, l, 0, 8 - l);
    OneByte(z, b / 0x100_0000);
    assert BytesBits(z) + (BitsOf(x, l) + BitsOf(0, 8 - l)) == BytesBits(z) + BitsOf(x, l) + BitsOf(0, 8 - l);
  }

  lemma Regroup3(x: int, a: int, c: int)
    ensures x * (a * c) == (x * a) * c
  {
  }
}
