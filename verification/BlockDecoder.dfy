/** decompress.c, BZ2_decompress: one block, or the end of the stream. As for its parts, every method
    takes any input; what it promises for the compressor's output is stated for a witness. */
module BlockDecoder {
  import opened Rotations
  import opened Counting
  import opened Bwt
  import opened CanonicalCode
  import opened Bits
  import opened MoveToFront
  import opened MtfSymbols
  import opened MtfEncoder
  import opened BitIO
  import opened BlockFormat
  import opened BlockReader
  import opened BlockEncoder
  import BlockWriter
  import SelectorCodes
  import HuffmanTables
  import SymbolDecoder
  import InverseBwt

  /* ---------- bytes and words ---------- */

  /** A byte that must be x. */
  method Expect(r: BitReader, x: int, ghost k: seq<int>) returns (st: Status)
    requires r.Valid() && 0 <= x < 256
    modifies r
    ensures r.Valid()
    ensures st.Short? ==> r.Spent()
    ensures |r.Remaining()| <= |old(r.Remaining())|
    ensures st.Fine? ==> old(r.Remaining()) == Put(x, 8, r.Remaining())
    ensures old(r.Remaining()) == Put(x, 8, k) ==>
      (st.Fine? || (st.Short? && r.more != [])) && (st.Fine? ==> r.Remaining() == k)
  {
    hide *;
    BlockWriter.Pow2Small();
    var ok, uc := TakeBits(r, 8, x, k);
    if !ok { return Short; }
    if uc != x { return Corrupt; }
    st := Fine;
  }

  lemma WordValue(u: nat)
    requires u < 0x1_0000_0000
    ensures (((u / 0x100_0000 % 256) * 256 + u / 0x1_0000 % 256) * 256 + u / 256 % 256) * 256 + u % 256 == u
  {
    assert u / 256 == u / 0x1_0000 * 256 + u / 256 % 256;
    assert u / 0x1_0000 == u / 0x100_0000 * 256 + u / 0x1_0000 % 256;
  }

  /** Four bytes, most significant first. */
  lemma WordOf(a: nat, b: nat, c: nat, d: nat)
    requires a < 256 && b < 256 && c < 256 && d < 256
    ensures var v := ((a * 256 + b) * 256 + c) * 256 + d;
      v / 0x100_0000 % 256 == a && v / 0x1_0000 % 256 == b && v / 256 % 256 == c && v % 256 == d
  {
  }

  method ReadWord(r: BitReader, ghost u: nat, ghost k: seq<int>) returns (st: Status, v: nat)
    requires r.Valid()
    modifies r
    ensures r.Valid() && v < 0x1_0000_0000
    ensures st.Short? ==> r.Spent()
    ensures |r.Remaining()| <= |old(r.Remaining())|
    ensures st.Fine? ==> old(r.Remaining()) == Word(v, r.Remaining())
    ensures u < 0x1_0000_0000 && old(r.Remaining()) == Word(u, k) ==>
      (st.Fine? || (st.Short? && r.more != [])) && (st.Fine? ==> v == u && r.Remaining() == k)
  {
    hide *;
    BlockWriter.Pow2Small();
    BlockWriter.WordIs(u, k);
    if u < 0x1_0000_0000 { WordValue(u); }
    v := 0;
    var ok, uc :=
      TakeBits(r, 8, u / 0x100_0000 % 256, Put(u / 0x1_0000 % 256, 8, Put(u / 256 % 256, 8, Put(u % 256, 8, k))));
    if !ok { return Short, 0; }
    ghost var a := uc;
    v := v * 256 + uc;
    ok, uc := TakeBits(r, 8, u / 0x1_0000 % 256, Put(u / 256 % 256, 8, Put(u % 256, 8, k)));
    if !ok { return Short, 0; }
    ghost var b := uc;
    v := v * 256 + uc;
    ok, uc := TakeBits(r, 8, u / 256 % 256, Put(u % 256, 8, k));
    if !ok { return Short, 0; }
    ghost var c := uc;
    v := v * 256 + uc;
    ok, uc := TakeBits(r, 8, u % 256, k);
    if !ok { return Short, 0; }
    ghost var d := uc;
    v := v * 256 + uc;
    WordOf(a, b, c, d);
    BlockWriter.WordIs(v, r.Remaining());
    st := Fine;
  }

  /** 24 bits at once are three bytes one after the other. */
  lemma ThreeBytes(o: nat, k: seq<int>)
    requires o < 0x100_0000
    ensures Put(o, 24, k) == Put(o / 0x1_0000, 8, Put(o / 256 % 256, 8, Put(o % 256, 8, k)))
    ensures ((o / 0x1_0000) * 256 + o / 256 % 256) * 256 + o % 256 == o
  {
    hide BitsOf;
    hide Pow2;
    BlockWriter.Pow2Small();
    assert o / 256 == o / 0x1_0000 * 256 + o / 256 % 256;
    BitsAppend(o / 256, 16, o % 256, 8);
    BitsAppend(o / 0x1_0000, 8, o / 256 % 256, 8);
    var a, b, c := BitsOf(o / 0x1_0000, 8), BitsOf(o / 256 % 256, 8), BitsOf(o % 256, 8);
    assert a + b + c + k == a + (b + (c + k));
  }

  method ReadPointer(r: BitReader, ghost o: nat, ghost k: seq<int>) returns (st: Status, v: nat)
    requires r.Valid()
    modifies r
    ensures r.Valid()
    ensures st.Short? ==> r.Spent()
    ensures |r.Remaining()| <= |old(r.Remaining())|
    ensures st.Fine? ==> v < 0x100_0000 && old(r.Remaining()) == Put(v, 24, r.Remaining())
    ensures o < 0x100_0000 && old(r.Remaining()) == Put(o, 24, k) ==>
      (st.Fine? || (st.Short? && r.more != [])) && (st.Fine? ==> v == o && r.Remaining() == k)
  {
    hide *;
    BlockWriter.Pow2Small();
    if o < 0x100_0000 { ThreeBytes(o, k); }
    v := 0;
    var ok, uc := TakeBits(r, 8, o / 0x1_0000, Put(o / 256 % 256, 8, Put(o % 256, 8, k)));
    if !ok { return Short, 0; }
    ghost var a := uc;
    v := v * 256 + uc;
    ok, uc := TakeBits(r, 8, o / 256 % 256, Put(o % 256, 8, k));
    if !ok { return Short, 0; }
    ghost var b := uc;
    v := v * 256 + uc;
    ok, uc := TakeBits(r, 8, o % 256, k);
    if !ok { return Short, 0; }
    ghost var c := uc;
    v := v * 256 + uc;
    WordOf(0, a, b, c);
    ThreeBytes(v, r.Remaining());
    st := Fine;
  }

  /* ---------- header ---------- */

  /** A block header after its first byte. */
  ghost function HeaderRest(crc: nat, origPtr: nat, k: seq<int>): (s: seq<int>) {
    Put(0x41, 8, Put(0x59, 8, Put(0x26, 8, Put(0x53, 8, Put(0x59, 8, Word(crc, Put(0, 1, Put(origPtr, 24, k))))))))
  }

  lemma HeaderRestIs(crc: nat, origPtr: nat, k: seq<int>)
    ensures Header(crc, origPtr, k) == Put(0x31, 8, HeaderRest(crc, origPtr, k))
    ensures HeaderRest(crc, origPtr, k) ==
      Put(0x41, 8, Put(0x59, 8, Put(0x26, 8, Put(0x53, 8, Put(0x59, 8, Word(crc, Put(0, 1, Put(origPtr, 24, k))))))))
  {
  }

  method ReadHeader(r: BitReader, blockSize100k: nat, ghost crc: nat, ghost o: nat, ghost k: seq<int>)
    returns (st: Status, storedBlockCRC: nat, blockRandomised: bool, origPtr: nat)
    requires r.Valid() && 1 <= blockSize100k <= 9
    modifies r
    ensures r.Valid()
    ensures st.Short? ==> r.Spent()
    ensures |r.Remaining()| <= |old(r.Remaining())|
    ensures st.Fine? && !blockRandomised ==>
      old(r.Remaining()) == HeaderRest(storedBlockCRC, origPtr, r.Remaining())
    ensures st.Fine? ==> storedBlockCRC < 0x1_0000_0000 && origPtr <= 10 + 100000 * blockSize100k
    ensures crc < 0x1_0000_0000 && o <= 10 + 100000 * blockSize100k && old(r.Remaining()) == HeaderRest(crc, o, k) ==>
      (st.Fine? || (st.Short? && r.more != [])) &&
      (st.Fine? ==> storedBlockCRC == crc && !blockRandomised && origPtr == o && r.Remaining() == k)
  {
    hide *;
    BlockWriter.Pow2Small();
    HeaderRestIs(crc, o, k);
    storedBlockCRC, blockRandomised, origPtr := 0, false, 0;
    ghost var k2 := Put(0, 1, Put(o, 24, k));
    ghost var k1 := Word(crc, k2);
    st := Expect(r, 0x41, Put(0x59, 8, Put(0x26, 8, Put(0x53, 8, Put(0x59, 8, k1)))));
    if !st.Fine? { return; }
    st := Expect(r, 0x59, Put(0x26, 8, Put(0x53, 8, Put(0x59, 8, k1))));
    if !st.Fine? { return; }
    st := Expect(r, 0x26, Put(0x53, 8, Put(0x59, 8, k1)));
    if !st.Fine? { return; }
    st := Expect(r, 0x53, Put(0x59, 8, k1));
    if !st.Fine? { return; }
    st := Expect(r, 0x59, k1);
    if !st.Fine? { return; }
    st, storedBlockCRC := ReadWord(r, crc, k2);
    if !st.Fine? { return; }
    var ok, bit := TakeBits(r, 1, 0, Put(o, 24, k));
    if !ok { st := Short; return; }
    blockRandomised := bit == 1;
    st, origPtr := ReadPointer(r, o, k);
    if !st.Fine? { return; }
    if origPtr > 10 + 100000 * blockSize100k { st := Corrupt; }
    HeaderRestIs(storedBlockCRC, origPtr, r.Remaining());
  }

  /* ---------- the bytes in use ---------- */

  lemma UsedStep(inUse: seq<bool>, i: nat)
    requires i < |inUse|
    ensures Used(inUse, i + 1) == Used(inUse, i) + (if inUse[i] then [i] else [])
    ensures Used(inUse, 0) == []
  {
  }

  /** makeMaps_d */
  method MakeMaps(inUse: array<bool>) returns (seqToUnseq: array<int>, nInUse: nat)
    requires inUse.Length == 256
    ensures fresh(seqToUnseq) && seqToUnseq.Length == 256 && SymbolDecoder.ByteTable(seqToUnseq[..])
    ensures nInUse == |Used(inUse[..], 256)| <= 256 && seqToUnseq[..nInUse] == Used(inUse[..], 256)
  {
    hide Used;
    seqToUnseq := new int[256](_ => 0);
    nInUse := 0;
    var i := 0;
    UsedStep(inUse[..], 0);
    while i < 256
      invariant 0 <= i <= 256 && 0 <= nInUse <= i && seqToUnseq[..nInUse] == Used(inUse[..], i)
      invariant forall j :: 0 <= j < 256 ==> 0 <= seqToUnseq[j] < 256
    {
      UsedStep(inUse[..], i);
      if inUse[i] {
        ghost var had := seqToUnseq[..nInUse];
        seqToUnseq[nInUse] := i;
        assert seqToUnseq[..nInUse] == had;
        nInUse := nInUse + 1;
      }
      i := i + 1;
    }
  }

  method ReadUsed(r: BitReader, ghost u: seq<bool>, ghost k: seq<int>)
      returns (st: Status, seqToUnseq: seq<int>, nInUse: nat)
    requires r.Valid() && |u| == 256
    modifies r
    ensures r.Valid() && (st.Fine? ==> SymbolDecoder.ByteTable(seqToUnseq) && 1 <= nInUse <= 256)
    ensures st.Short? ==> r.Spent()
    ensures |r.Remaining()| <= |old(r.Remaining())|
    ensures |Used(u, 256)| >= 1 && old(r.Remaining()) == MapBits(u, k) ==>
      (st.Fine? || (st.Short? && r.more != [])) &&
      (st.Fine? ==>
      nInUse == |Used(u, 256)| <= |seqToUnseq| && seqToUnseq[..nInUse] == Used(u, 256) && r.Remaining() == k)
  {
    hide *;
    var inUse;
    st, inUse := ReadMap(r, u, k);
    seqToUnseq, nInUse := [], 0;
    if !st.Fine? { return; }
    var map256;
    map256, nInUse := MakeMaps(inUse);
    seqToUnseq := map256[..];
    assert map256[..nInUse] == seqToUnseq[..nInUse];
    if nInUse == 0 { st := Corrupt; }
  }

  /* ---------- selectors ---------- */

  /** The selectors: their count, their numbers, and what those stand for. */
  method ReadSelected(r: BitReader, ghost n: nat, ghost codes: seq<nat>, ghost k: seq<int>)
    returns (st: Status, nGroups: nat, selector: seq<int>)
    requires r.Valid()
    modifies r
    ensures r.Valid() &&
      (st.Fine? ==> 2 <= nGroups <= 6 && |selector| >= 1 && forall i ::
      0 <= i < |selector| ==> 0 <= selector[i] < nGroups)
    ensures st.Short? ==> r.Spent()
    ensures |r.Remaining()| <= |old(r.Remaining())|
    ensures (2 <= n <= 6 && 1 <= |codes| <= MAX_SELECTORS && (forall i :: 0 <= i < |codes| ==> codes[i] < n) &&
             old(r.Remaining()) == Put(n, 3, Put(|codes|, 15, Selectors(codes, 0, k)))) ==>
      (st.Fine? || (st.Short? && r.more != [])) &&
      (st.Fine? ==>
        nGroups == n && (forall i :: 0 <= i < |codes| ==> codes[i] < n) &&
        selector == SelectorCodes.Undone(SelectorCodes.Tables(n), codes) && r.Remaining() == k)
  {
    hide *;
    BlockWriter.Pow2Small();
    MaxSelectors();
    nGroups, selector := 0, [];
    var ok, got := TakeBits(r, 3, n, Put(|codes|, 15, Selectors(codes, 0, k)));
    if !ok { st := Short; return; }
    nGroups := got;
    if nGroups < 2 || nGroups > 6 { st := Corrupt; return; }
    var nSelectors;
    ok, nSelectors := TakeBits(r, 15, |codes|, Selectors(codes, 0, k));
    if !ok { st := Short; return; }
    if nSelectors < 1 { st := Corrupt; return; }
    var selectorMtf;
    st, selectorMtf := ReadSelectors(r, nGroups, nSelectors, codes, k);
    if !st.Fine? { return; }
    var sel := SelectorCodes.DecodeSelectors(selectorMtf, nSelectors, nGroups);
    assert selectorMtf[..nSelectors] == selectorMtf[..];
    selector := sel[..];
  }

  lemma MaxSelectors()
    ensures MAX_SELECTORS == 18002
  {
  }

  /* ---------- coding tables ---------- */

  ghost predicate LensRead(len: seq<seq<int>>, n: nat, alphaSize: nat) {
    |len| == n && 0 < alphaSize <= 258 && forall t {:trigger len[t]} ::
    0 <= t < n ==> |len[t]| == alphaSize && LensOk(len[t])
  }

  lemma LensReadStart(alphaSize: nat)
    requires 0 < alphaSize <= 258
    ensures LensRead([], 0, alphaSize)
  {
  }

  lemma LensReadStep(len: seq<seq<int>>, n: nat, alphaSize: nat, row: seq<int>)
    requires LensRead(len, n, alphaSize) && |row| == alphaSize && forall i :: 0 <= i < alphaSize ==> 1 <= row[i] <= 20
    ensures LensRead(len + [row], n + 1, alphaSize)
  {
  }

  lemma LensReadAt(len: seq<seq<int>>, n: nat, alphaSize: nat, t: nat)
    requires LensRead(len, n, alphaSize) && t < n
    ensures |len| == n && |len[t]| == alphaSize <= 258 && 0 < alphaSize && forall i ::
      0 <= i < |len[t]| ==> 1 <= len[t][i] <= 20
  {
  }

  method ReadTables(r: BitReader, nGroups: nat, alphaSize: nat, ghost tables: seq<seq<int>>, ghost k: seq<int>)
    returns (st: Status, len: seq<seq<int>>)
    requires r.Valid() && 0 < alphaSize <= 258
    modifies r
    ensures r.Valid() && (st.Fine? ==> LensRead(len, nGroups, alphaSize))
    ensures st.Short? ==> r.Spent()
    ensures |r.Remaining()| <= |old(r.Remaining())|
    ensures (|tables| == nGroups && nGroups > 0 && Lens(tables, alphaSize) &&
             old(r.Remaining()) == Tables(tables, alphaSize, 0, k)) ==>
      (st.Fine? || (st.Short? && r.more != [])) && (st.Fine? ==> len == tables && r.Remaining() == k)
  {
    hide *;
    ghost var good :=
      |tables| == nGroups && nGroups > 0 && Lens(tables, alphaSize) && r.Remaining() == Tables(tables, alphaSize, 0, k);
    len := [];
    LensReadStart(alphaSize);
    st := Fine;
    var t := 0;
    while t < nGroups
      invariant r.Valid() && |r.Remaining()| <= |old(r.Remaining())|
      invariant 0 <= t <= nGroups && r.Valid() && LensRead(len, t, alphaSize) && |len| == t && st.Fine?
      invariant good ==> len == tables[..t] && r.Remaining() == Tables(tables, alphaSize, t, k)
    {
      if good { BlockWriter.TablesAt(tables, alphaSize, t, k); }
      var row;
      st, row :=
        BlockReader.ReadTable(r, alphaSize, if good then tables[t]
        else [], if good then Tables(tables, alphaSize, t + 1, k) else k);
      if !st.Fine? { return; }
      LensReadStep(len, t, alphaSize, row[..]);
      len := len + [row[..]];
      t := t + 1;
    }
    if good { BlockWriter.TablesAt(tables, alphaSize, 0, k); }
  }

  ghost predicate TablesMade(ts: seq<HuffmanTables.DecodeTable>, len: seq<seq<int>>, n: nat) {
    |ts| == n <= |len| && forall t {:trigger ts[t]} {:trigger len[t]} ::
    0 <= t < n ==> HuffmanTables.TableFor(ts[t], len[t])
  }

  lemma TablesMadeStart(len: seq<seq<int>>)
    ensures TablesMade([], len, 0)
  {
  }

  lemma TablesMadeStep(ts: seq<HuffmanTables.DecodeTable>, len: seq<seq<int>>, n: nat, t: HuffmanTables.DecodeTable)
    requires TablesMade(ts, len, n) && n < |len| && HuffmanTables.TableFor(t, len[n])
    ensures TablesMade(ts + [t], len, n + 1)
  {
    hide HuffmanTables.TableFor;
  }

  /** Create the Huffman decoding tables. */
  method CreateTables(len: seq<seq<int>>, nGroups: nat, alphaSize: nat) returns (ts: seq<HuffmanTables.DecodeTable>)
    requires LensRead(len, nGroups, alphaSize) && |len| == nGroups
    ensures TablesMade(ts, len, nGroups)
  {
    hide *;
    ts := [];
    TablesMadeStart(len);
    var t := 0;
    while t < nGroups
      invariant 0 <= t <= nGroups && TablesMade(ts, len, t)
    {
      LensReadAt(len, nGroups, alphaSize, t);
      var lens := len[t];
      var length := new int[alphaSize](i requires 0 <= i < |lens| => lens[i]);
      assert length[..alphaSize] == lens;
      var table := HuffmanTables.MakeTable(length, alphaSize);
      TablesMadeStep(ts, len, t, table);
      ts := ts + [table];
      t := t + 1;
    }
  }

  lemma ReadyTables(ts: seq<HuffmanTables.DecodeTable>, len: seq<seq<int>>, n: nat, selector: seq<int>, alphaSize: nat)
    requires TablesMade(ts, len, n) && LensRead(len, n, alphaSize) && forall i ::
      0 <= i < |selector| ==> 0 <= selector[i] < n
    ensures SymbolDecoder.TablesReady(ts, len, selector, alphaSize)
  {
    hide HuffmanTables.TableFor;
  }

  /* ---------- what the compressor's symbols stand for ---------- */

  /** Entries beyond those the symbols reach make no difference. */
  lemma {:induction false} UndoLonger(y: seq<int>, z: seq<int>, s: seq<int>, eob: int, r: seq<int>)
    requires eob > RUNB && Undo(y, s, eob) == Some(r)
    ensures Undo(y + z, s, eob) == Some(r)
    decreases |s|
  {
    if s == [] || s[0] == eob {
    } else if IsRun(s[0]) {
      var k := RunDigits(s);
      UndoLonger(y, z, s[k..], eob, Undo(y, s[k..], eob).value);
    } else {
      UndoLonger(ToFront(y, s[0] - 1), z, s[1..], eob, Undo(ToFront(y, s[0] - 1), s[1..], eob).value);
      assert ToFront(y + z, s[0] - 1) == ToFront(y, s[0] - 1) + z;
    }
  }

  /** The symbols of a coded block, undone from the decoder's full list, are its numbers. */
  lemma SymbolsUndone(c: Coded, n: nat, origPtr: nat, b: seq<int>, p: seq<int>, nums: seq<int>)
    requires EncodedBy(c, n, origPtr, b, p, nums) && 1 <= n <= 256
    ensures Undo(Identity(), c.syms, n + 1) == Some(nums) && SymbolDecoder.Ends(c.syms, n + 1) && |nums| == |b|
  {
    hide Undo;
    hide Symbols;
    UndoSymbols(Iota(n), nums, 0, n + 1);
    assert Repeat(Iota(n)[0], 0) + nums == nums;
    assert Iota(n) + Identity()[n..] == Identity();
    UndoLonger(Iota(n), Identity()[n..], c.syms, n + 1, nums);
    SymbolsEnd(Iota(n), nums, 0, n + 1);
  }

  /** Numbers turned back to bytes are the last column. */
  lemma ColumnRead(c: Coded, n: nat, origPtr: nat, b: seq<int>, p: seq<int>, nums: seq<int>, tt: seq<int>,
      seqToUnseq: seq<int>)
    requires EncodedBy(c, n, origPtr, b, p, nums) && n <= |seqToUnseq| && seqToUnseq[..n] == Used(c.inUse, 256)
    requires SymbolDecoder.Matches(tt, |b|, nums, seqToUnseq)
    ensures tt[..|b|] == LastColumn(b, p)
  {
    forall i | 0 <= i < |b| ensures tt[i] == LastColumn(b, p)[i] {
      assert 0 <= nums[i] < n && seqToUnseq[nums[i]] == seqToUnseq[..n][nums[i]];
    }
  }

  /** From that column and origPtr, the decoder delivers the block. */
  lemma BlockDelivered(b: seq<int>, p: seq<int>, origPtr: nat)
    requires SortedRotations(b, p) && origPtr < |b| && p[origPtr] == 0
    ensures Delivers(LastColumn(b, p), origPtr, b)
  {
    forall k: nat | k < |b| ensures Decoded(LastColumn(b, p), origPtr, k) == b[k] { RoundTrip(b, p, origPtr, k); }
  }

  ghost predicate Delivers(l: seq<int>, origPtr: nat, b: seq<int>) {
    |l| == |b| && origPtr < |l| && forall k: nat :: k < |b| ==> Decoded(l, origPtr, k) == b[k]
  }

  /* ---------- a stand-in for inputs that are not a compressor's ---------- */

  lemma {:induction false} LongSpace(lens: seq<int>, k: nat)
    requires k <= |lens| && forall i :: 0 <= i < |lens| ==> lens[i] == 20
    ensures Space(lens, k, 20, 20) == k
    decreases k
  {
    if k > 0 { LongSpace(lens, k - 1); }
  }

  ghost function AnyCoded(alphaSize: nat): (c: Coded)
    requires 2 <= alphaSize <= 258
    ensures Sound(c, alphaSize)
  {
    var row := seq(alphaSize, _ => 20);
    LongSpace(row, alphaSize);
    BlockWriter.Pow2Small();
    Pow2Monotone(15, 20);
    Coded(seq(256, _ => true), [0], [row, row], [0])
  }

  /* ---------- the body ---------- */

  /** The stream is the body of block b, coded as c, and then k. */
  ghost predicate Arriving(stream: seq<int>, c: Coded, codes: seq<nat>, n: nat, o: nat, b: seq<int>, p: seq<int>,
      nums: seq<int>, k: seq<int>) {
    Encodes(c, n, o, b) && EncodedBy(c, n, o, b, p, nums) && Carries(c, codes) && stream == Body(c, codes, n + 2, k)
  }

  lemma ArrivingParts(stream: seq<int>, c: Coded, codes: seq<nat>, n: nat, o: nat, b: seq<int>, p: seq<int>,
      nums: seq<int>, k: seq<int>)
    requires Arriving(stream, c, codes, n, o, b, p, nums, k)
    ensures 1 <= n <= 256 && Sound(c, n + 2) && Carries(c, codes) && |codes| == |c.selectors| &&
      EncodedBy(c, n, o, b, p, nums)
  {
    hide Body;
    hide Symbols;
    hide Kraft;
  }

  lemma ArrivingBody(stream: seq<int>, c: Coded, codes: seq<nat>, n: nat, o: nat, b: seq<int>, p: seq<int>,
      nums: seq<int>, k: seq<int>)
    requires Sound(c, n + 2) && |codes| == |c.selectors|
    requires Arriving(stream, c, codes, n, o, b, p, nums, k)
    ensures stream == Body(c, codes, n + 2, k)
  {
    hide Body;
    hide Symbols;
    hide Kraft;
  }

  lemma CodedSizes(c: Coded, codes: seq<nat>, n: nat)
    requires Sound(c, n + 2) && Carries(c, codes)
    ensures |c.inUse| == 256 && 2 <= |c.tables| <= 6 && 1 <= |codes| == |c.selectors| <= MAX_SELECTORS &&
      Lens(c.tables, n + 2)
    ensures forall i :: 0 <= i < |codes| ==> codes[i] < |c.tables|
  {
    hide Kraft;
  }

  lemma EncodedSizes(c: Coded, n: nat, o: nat, b: seq<int>, p: seq<int>, nums: seq<int>)
    requires EncodedBy(c, n, o, b, p, nums)
    ensures |c.inUse| == 256 && |Used(c.inUse, 256)| == n
  {
  }

  lemma SelectorsUndone(c: Coded, codes: seq<nat>)
    requires Carries(c, codes) && forall i :: 0 <= i < |codes| ==> codes[i] < |c.tables|
    ensures SelectorCodes.Undone(SelectorCodes.Tables(|c.tables|), codes) == c.selectors
  {
    SelectorCodes.UndoneCodes(SelectorCodes.Tables(|c.tables|), c.selectors);
  }

  /** Everything up to the symbols. */
  method ReadTablesAndSymbols(r: BitReader, tt: array<int>, nblockMAX: nat, ghost c: Coded, ghost codes: seq<nat>,
      ghost n: nat,
                              ghost o: nat, ghost b: seq<int>, ghost p: seq<int>, ghost nums: seq<int>,
                                ghost k: seq<int>)
    returns (st: Status, nblock: nat, unzftab: array<int>)
    requires r.Valid() && nblockMAX <= tt.Length && nblockMAX <= 900_000
    modifies r, tt
    ensures r.Valid() && fresh(unzftab) && unzftab.Length == 256 &&
      (st.Fine? ==> nblock <= nblockMAX && SymbolDecoder.Stored(tt[..], nblock, unzftab[..]))
    ensures st.Short? ==> r.Spent()
    ensures |r.Remaining()| <= |old(r.Remaining())|
    ensures Arriving(old(r.Remaining()), c, codes, n, o, b, p, nums, k) && |b| <= nblockMAX ==>
      (st.Fine? || (st.Short? && r.more != [])) &&
      (st.Fine? ==> nblock == |b| <= tt.Length && tt[..|b|] == LastColumn(b, p) && r.Remaining() == k)
  {
    hide *;
    ghost var good := Arriving(r.Remaining(), c, codes, n, o, b, p, nums, k) && |b| <= nblockMAX;
    if good {
      ArrivingParts(r.Remaining(), c, codes, n, o, b, p, nums, k);
      ArrivingBody(r.Remaining(), c, codes, n, o, b, p, nums, k);
      CodedSizes(c, codes, n);
      EncodedSizes(c, n, o, b, p, nums);
      BlockWriter.BodyParts(c, codes, n + 2, k);
      SelectorsUndone(c, codes);
      SymbolsUndone(c, n, o, b, p, nums);
    }
    ghost var data := if good then Data(c, n + 2, 0, k) else k;
    ghost var tabs := if good then Tables(c.tables, n + 2, 0, data) else k;
    ghost var sels := if good then Put(|c.tables|, 3, Put(|codes|, 15, Selectors(codes, 0, tabs))) else k;
    unzftab := new int[256];
    nblock := 0;
    var seqToUnseq, nInUse, nGroups, selector, len;
    st, seqToUnseq, nInUse := ReadUsed(r, if good then c.inUse else seq(256, _ => false), sels);
    if !st.Fine? { return; }
    st, nGroups, selector := ReadSelected(r, |c.tables|, codes, tabs);
    if !st.Fine? { return; }
    st, len := ReadTables(r, nGroups, nInUse + 2, c.tables, data);
    if !st.Fine? { return; }
    var ts := CreateAll(len, nGroups, selector, nInUse + 2);
    ghost var cs := if good then c else AnyCoded(nInUse + 2);
    st, nblock, unzftab :=
      SymbolDecoder.ReadSymbols(r, ts, selector, nInUse, seqToUnseq, tt, nblockMAX, len, cs, k, nums);
    if good && st.Fine? {
      ColumnRead(c, n, o, b, p, nums, tt[..], seqToUnseq);
      assert tt[..][..|b|] == tt[..|b|];
    }
  }

  method CreateAll(len: seq<seq<int>>, nGroups: nat, selector: seq<int>, alphaSize: nat)
      returns (ts: seq<HuffmanTables.DecodeTable>)
    requires LensRead(len, nGroups, alphaSize) && forall i :: 0 <= i < |selector| ==> 0 <= selector[i] < nGroups
    ensures SymbolDecoder.TablesReady(ts, len, selector, alphaSize)
  {
    hide *;
    LensReadSize(len, nGroups, alphaSize);
    ts := CreateTables(len, nGroups, alphaSize);
    ReadyTables(ts, len, nGroups, selector, alphaSize);
  }

  lemma LensReadSize(len: seq<seq<int>>, n: nat, alphaSize: nat)
    requires LensRead(len, n, alphaSize)
    ensures |len| == n
  {
  }

  lemma StoredFacts(tt: seq<int>, nblock: nat, unz: seq<int>)
    requires SymbolDecoder.Stored(tt, nblock, unz)
    ensures nblock <= |tt| && |unz| == 256 && Keys(tt[..nblock], 256) && |tt[..nblock]| == nblock
    ensures forall v :: 0 <= v < 256 ==> unz[v] == Count(tt[..nblock], nblock, v)
  {
    forall v | 0 <= v < 256
      ensures unz[v] == Count(tt[..nblock], nblock, v) { SymbolDecoder.CountAgain(tt, tt[..nblock], nblock, v); }
  }

  /** The body of a block: on success store holds its last column l, and cftab the cumulative counts. */
  method ReadBody(r: BitReader, store: array<int>, nblockMAX: nat, origPtr: nat, ghost c: Coded, ghost codes: seq<nat>,
      ghost n: nat,
                  ghost b: seq<int>, ghost p: seq<int>, ghost nums: seq<int>, ghost k: seq<int>)
    returns (st: Status, nblock: nat, cftab: array<int>, ghost l: seq<int>)
    requires r.Valid() && nblockMAX <= store.Length && nblockMAX <= 900_000
    modifies r, store
    ensures r.Valid() && fresh(cftab) &&
      (st.Fine? ==> origPtr < nblock == |l| <= nblockMAX && Keys(l, 256) && store[..nblock] == l)
    ensures st.Short? ==> r.Spent()
    ensures |r.Remaining()| <= |old(r.Remaining())|
    ensures st.Fine? ==> InverseBwt.Cumulative(l, cftab[..], 257)
    ensures Arriving(old(r.Remaining()), c, codes, n, origPtr, b, p, nums, k) && |b| <= nblockMAX ==>
      (st.Fine? || (st.Short? && r.more != [])) &&
      (st.Fine? ==> Delivers(l, origPtr, b) && r.Remaining() == k)
  {
    hide *;
    ghost var good := Arriving(r.Remaining(), c, codes, n, origPtr, b, p, nums, k) && |b| <= nblockMAX;
    if good {
      ArrivingParts(r.Remaining(), c, codes, n, origPtr, b, p, nums, k);
      EncodedSorted(c, n, origPtr, b, p, nums);
    }
    var unzftab;
    l := [];
    cftab := new int[0];
    st, nblock, unzftab := ReadTablesAndSymbols(r, store, nblockMAX, c, codes, n, origPtr, b, p, nums, k);
    if !st.Fine? { return; }
    StoredFacts(store[..], nblock, unzftab[..]);
    if origPtr >= nblock { st := Corrupt; return; }
    l := store[..nblock];
    assert store[..][..nblock] == l;
    var ok;
    cftab, ok := InverseBwt.MakeCftab(unzftab, nblock, l);
    if !ok { st := Corrupt; return; }
    if good { BlockDelivered(b, p, origPtr); }
  }

  lemma EncodedSorted(c: Coded, n: nat, origPtr: nat, b: seq<int>, p: seq<int>, nums: seq<int>)
    requires EncodedBy(c, n, origPtr, b, p, nums)
    ensures SortedRotations(b, p) && origPtr < |b| && p[origPtr] == 0
  {
  }
}
