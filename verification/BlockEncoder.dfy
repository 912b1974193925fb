/** compress.c, BZ2_compressBlock: from the bytes of a block to its bits. */
module BlockEncoder {
  import opened ByteSeq
  import opened Rotations
  import opened Counting
  import opened Bwt
  import opened CanonicalCode
  import opened MtfSymbols
  import opened MtfEncoder
  import opened BitIO
  import opened BlockFormat
  import BlockSort
  import BlockWriter
  import SelectorCodes
  import HuffmanTables
  import SymbolDecoder
  import TableChoice

  /** The symbols of c are those of the block b: p is a rotation order of b with b itself in row
      origPtr, and nums its last column, each byte by its number among the bytes in use. */
  ghost predicate EncodedBy(c: Coded, n: nat, origPtr: nat, b: seq<int>, p: seq<int>, nums: seq<int>) {
    SortedRotations(b, p) && origPtr < |b| && p[origPtr] == 0 && |c.inUse| == 256 && n == |Used(c.inUse, 256)| &&
    Numbers(nums, LastColumn(b, p), Used(c.inUse, 256)) && (forall i :: 0 <= i < |nums| ==> nums[i] in Iota(n)) &&
    c.syms == Symbols(Iota(n), nums, 0, n + 1)
  }

  /** The bytes in use are those that occur, and the tables are those chosen for the symbols. */
  ghost predicate Fitted(c: Coded, n: nat, b: seq<int>) {
    Marks(c.inUse, b) && TableChoice.Chosen(c.tables, c.selectors, |c.tables|, n + 2, c.syms)
  }

  /** c codes the block b, which has n bytes in use. */
  ghost predicate Encodes(c: Coded, n: nat, origPtr: nat, b: seq<int>) {
    0 < |b| <= 900_000 && Keys(b, 256) && 1 <= n <= 256 && Sound(c, n + 2) && exists p, nums ::
    EncodedBy(c, n, origPtr, b, p, nums)
  }

  /* ---------- the symbols are in the alphabet, and end in the end symbol ---------- */

  /** The symbols end in the end symbol, which occurs nowhere else, and all are in the alphabet. */
  ghost predicate Proper(s: seq<int>, eob: int) {
    SymbolDecoder.Ends(s, eob) && forall i :: 0 <= i < |s| ==> 0 <= s[i] <= eob
  }

  lemma {:induction false} SymbolsProper(y: seq<int>, c: seq<int>, z: nat, eob: int)
    requires |y| > 0 && eob == |y| + 1 && (forall i :: 0 <= i < |c| ==> c[i] in y)
    ensures Proper(Symbols(y, c, z, eob), eob)
    decreases |c|
  {
    hide RunCode;
    hide Proper;
    if c == [] {
      EndsAlone(eob);
      EndsPrefix(RunCode(z), [eob], eob);
    } else {
      var j := IndexOf(y, c[0]);
      if j == 0 {
        SymbolsProper(y, c[1..], z + 1, eob);
      } else {
        var y' := MoveToFront.ToFront(y, j);
        ToFrontMembers(y, j);
        SymbolsProper(y', c[1..], 0, eob);
        EndsPrefix(RunCode(z) + [j + 1], Symbols(y', c[1..], 0, eob), eob);
      }
    }
  }

  lemma SymbolsEnd(y: seq<int>, c: seq<int>, z: nat, eob: int)
    requires |y| > 0 && eob == |y| + 1 && (forall i :: 0 <= i < |c| ==> c[i] in y)
    ensures var s := Symbols(y, c, z, eob); SymbolDecoder.Ends(s, eob) && forall i :: 0 <= i < |s| ==> 0 <= s[i] <= eob
  {
    hide Symbols;
    SymbolsProper(y, c, z, eob);
  }

  lemma EndsAlone(eob: int)
    requires eob >= 0
    ensures Proper([eob], eob)
  {
  }

  lemma EndsPrefix(d: seq<int>, s: seq<int>, eob: int)
    requires Proper(s, eob) && forall i :: 0 <= i < |d| ==> 0 <= d[i] < eob
    ensures Proper(d + s, eob)
  {
  }

  /** What the choice of tables needs to know about the symbols written. */
  lemma SymbolsFit(syms: seq<int>, a: seq<int>, freq: seq<int>, nums: seq<int>, n: nat)
    requires 1 <= n <= 256 && (forall i :: 0 <= i < |nums| ==> nums[i] in Iota(n)) &&
      syms == Symbols(Iota(n), nums, 0, n + 1)
    requires Written(a, syms, freq) && |freq| == 258
    ensures 0 < |syms| && TableChoice.InAlphabet(syms, n + 2) && BlockWriter.HoldsSyms(a, syms)
    ensures (forall v :: 0 <= v < n + 2 ==> freq[v] == Count(syms, |syms|, v)) && freq[n + 1] > 0
  {
    hide Symbols;
    hide Written;
    hide Count;
    SymbolsEnd(Iota(n), nums, 0, n + 1);
    WrittenFit(syms, a, freq);
    LastCounted(syms);
  }

  lemma WrittenFit(syms: seq<int>, a: seq<int>, freq: seq<int>)
    requires Written(a, syms, freq)
    ensures BlockWriter.HoldsSyms(a, syms) && forall v :: 0 <= v < |freq| ==> freq[v] == Count(syms, |syms|, v)
  {
    hide Count;
  }

  lemma LastCounted(s: seq<int>)
    requires s != []
    ensures Count(s, |s|, s[|s| - 1]) > 0
  {
  }

  /* ---------- the codes ---------- */

  /** Assign actual codes for one table. */
  method CodesOf(lens: seq<int>, alphaSize: nat) returns (code: seq<int>)
    requires |lens| == alphaSize && 0 < alphaSize <= 258 && forall v :: 0 <= v < |lens| ==> 1 <= lens[v] <= 17
    ensures BlockWriter.CodeRow(code, lens)
  {
    var len := new int[alphaSize](v requires 0 <= v < |lens| => lens[v]);
    var codes := new int[alphaSize](_ => 0);
    assert len[..alphaSize] == lens;
    var minLen, maxLen := HuffmanTables.MinMax(len, alphaSize);
    assert maxLen <= 17 && minLen >= 1;  // asserts 3004 and 3005 of the source
    HuffmanTables.AssignCodes(codes, len, minLen, maxLen, alphaSize);
    code := codes[..];
  }

  /** Every table's lengths are those of a code. */
  ghost predicate Tabled(len: seq<seq<int>>, alphaSize: nat) {
    0 < alphaSize <= 258 && forall t {:trigger len[t]} ::
    0 <= t < |len| ==> |len[t]| == alphaSize && forall v :: 0 <= v < alphaSize ==> 1 <= len[t][v] <= 17
  }

  lemma TabledAt(len: seq<seq<int>>, alphaSize: nat, t: nat)
    requires Tabled(len, alphaSize) && t < |len|
    ensures |len[t]| == alphaSize && 0 < alphaSize <= 258 && forall v :: 0 <= v < |len[t]| ==> 1 <= len[t][v] <= 17
  {
  }

  ghost predicate RowsSoFar(code: seq<seq<int>>, len: seq<seq<int>>, n: nat) {
    n == |code| <= |len| && forall t {:trigger len[t]} :: 0 <= t < n ==> BlockWriter.CodeRow(code[t], len[t])
  }

  lemma RowsStart(len: seq<seq<int>>)
    ensures RowsSoFar([], len, 0)
  {
  }

  lemma RowsMore(code: seq<seq<int>>, len: seq<seq<int>>, n: nat, row: seq<int>)
    requires RowsSoFar(code, len, n) && n < |len| && BlockWriter.CodeRow(row, len[n])
    ensures RowsSoFar(code + [row], len, n + 1)
  {
    hide BlockWriter.CodeRow;
  }

  lemma RowsDone(code: seq<seq<int>>, len: seq<seq<int>>)
    requires RowsSoFar(code, len, |len|)
    ensures BlockWriter.CodeRows(code, len)
  {
  }

  method AllCodes(len: seq<seq<int>>, alphaSize: nat) returns (code: seq<seq<int>>)
    requires Tabled(len, alphaSize)
    ensures BlockWriter.CodeRows(code, len)
  {
    hide *;
    code := [];
    RowsStart(len);
    var t := 0;
    while t < |len|
      invariant 0 <= t <= |len| && RowsSoFar(code, len, t)
    {
      TabledAt(len, alphaSize, t);
      var row := CodesOf(len[t], alphaSize);
      RowsMore(code, len, t, row);
      code := code + [row];
      t := t + 1;
    }
    RowsDone(code, len);
  }

  /* ---------- the block ---------- */

  /** The choice made is a sound coding of the symbols. */
  lemma ChoiceSound(inUse: seq<bool>, sel: seq<int>, len: seq<seq<int>>, syms: seq<int>, nGroups: nat, alphaSize: nat)
    requires TableChoice.Chosen(len, sel, nGroups, alphaSize, syms) && TableChoice.InAlphabet(syms, alphaSize) &&
      |syms| > 0
    requires |inUse| == 256 && 2 <= alphaSize <= 258
    ensures (forall i :: 0 <= i < |sel| ==> 0 <= sel[i] < nGroups) && Tabled(len, alphaSize) &&
      Sound(Coded(inUse, sel, len, syms), alphaSize)
  {
    hide TableChoice.CodeFor;
    hide TableChoice.Row;
    hide TableChoice.Chosen;
    hide Kraft;
    var prev := TableChoice.ChosenParts(len, sel, nGroups, alphaSize, syms);
    forall i | 0 <= i < |sel| ensures 0 <= sel[i] < nGroups {
      assert TableChoice.Cheapest6(prev, nGroups, alphaSize, syms, 50 * i, TableChoice.GroupEnd(i, |syms|), sel[i]);
    }
    forall t {:trigger len[t]} | 0 <= t < |len|
      ensures |len[t]| == alphaSize && (forall v :: 0 <= v < alphaSize ==> 1 <= len[t][v] <= 17) && Kraft(len[t], 20)
    {
      TableChoice.CodeForKraft(TableChoice.Row(syms, sel, |syms|, t, alphaSize), len[t]);
    }
  }

  lemma FittedIntro(c: Coded, n: nat, b: seq<int>)
    requires Marks(c.inUse, b) && TableChoice.Chosen(c.tables, c.selectors, |c.tables|, n + 2, c.syms)
    ensures Fitted(c, n, b)
  {
    hide TableChoice.Chosen;
  }

  lemma MarksHold(inUse: seq<bool>, b: seq<int>)
    requires Marks(inUse, b) && Keys(b, 256)
    ensures forall k :: 0 <= k < |b| ==> inUse[b[k]]
  {
  }

  lemma EncodesIntro(c: Coded, n: nat, origPtr: nat, b: seq<int>, p: seq<int>, nums: seq<int>)
    requires 0 < |b| <= 900_000 && Keys(b, 256) && 1 <= n <= 256 && Sound(c, n + 2) && SortedRotations(b, p) &&
      origPtr < |b| && p[origPtr] == 0
    requires |c.inUse| == 256 && n == |Used(c.inUse, 256)|
    requires Numbers(nums, LastColumn(b, p), Used(c.inUse, 256)) && (forall i :: 0 <= i < |nums| ==> nums[i] in Iota(n))
    requires c.syms == Symbols(Iota(n), nums, 0, n + 1)
    ensures Encodes(c, n, origPtr, b)
  {
    hide Sound;
    hide Symbols;
    assert EncodedBy(c, n, origPtr, b, p, nums);
  }

  /** sendMTFValues: choose the tables and write everything after the header. */
  method SendMTFValues(w: BitWriter, inUse: array<bool>, words: seq<int>, nMTF: nat, mtfFreq: seq<int>, nInUse: nat,
      ghost nums: seq<int>, ghost syms: seq<int>)
    returns (ghost c: Coded, ghost codes: seq<nat>)
    requires w.Valid() && inUse.Length == 256 && 1 <= nInUse <= 256 && |mtfFreq| == 258 &&
      (forall i :: 0 <= i < |nums| ==> nums[i] in Iota(nInUse))
    requires syms == Symbols(Iota(nInUse), nums, 0, nInUse + 1)
    requires nMTF == |syms| <= 900_001 && Written(words, syms, mtfFreq)
    modifies w`zbits, w`bsBuff, w`bsLive
    ensures w.Valid() && Sound(c, nInUse + 2) && c.inUse == inUse[..] && c.syms == syms
    ensures TableChoice.Chosen(c.tables, c.selectors, |c.tables|, nInUse + 2, c.syms)
    ensures Carries(c, codes) && w.Written() == old(w.Written()) + Body(c, codes, nInUse + 2, [])
  {
    hide *;
    var alphaSize := nInUse + 2;
    SymbolsFit(syms, words, mtfFreq, nums, nInUse);
    var selector := new int[18002];
    var len, nGroups, nSelectors :=
      TableChoice.ChooseTables(words, nMTF, mtfFreq[..alphaSize], alphaSize, selector, syms);
    ghost var sel := selector[..nSelectors];
    ChoiceSound(inUse[..], sel, len, syms, nGroups, alphaSize);
    var code := AllCodes(len, alphaSize);
    assert selector[..nSelectors] == sel;
    c := Coded(inUse[..], sel, len, syms);
    ReadyIntro(c, alphaSize, words, code);
    ChosenSizes(len, sel, nGroups, alphaSize, syms);
    SelectorCodes.InTables(sel, |len|);
    codes := SelectorCodes.Codes(SelectorCodes.Tables(|len|), sel);
    CarriesIntro(c, codes);
    ghost var all := w.Written() + Body(c, codes, alphaSize, []);
    SentStart(w.Written(), Body(c, codes, alphaSize, []));
    BlockWriter.WriteBody(w, inUse, selector, nSelectors, alphaSize, len, code, words, nMTF, c, codes, [], all);
    SentEnd(w.Written(), all);
  }

  /** The numbers sent for the selectors. */
  ghost predicate Carries(c: Coded, codes: seq<nat>) {
    SelectorCodes.AllIn(c.selectors, SelectorCodes.Tables(|c.tables|)) &&
    codes == SelectorCodes.Codes(SelectorCodes.Tables(|c.tables|), c.selectors) &&
    |codes| == |c.selectors|
  }

  lemma CarriesIntro(c: Coded, codes: seq<nat>)
    requires SelectorCodes.AllIn(c.selectors, SelectorCodes.Tables(|c.tables|)) &&
      codes == SelectorCodes.Codes(SelectorCodes.Tables(|c.tables|), c.selectors)
    ensures Carries(c, codes) && |codes| == |c.selectors|
  {
  }

  lemma ChosenSizes(len: seq<seq<int>>, sel: seq<int>, nGroups: nat, alphaSize: nat, syms: seq<int>)
    requires TableChoice.Chosen(len, sel, nGroups, alphaSize, syms)
    ensures |len| == nGroups
  {
    hide TableChoice.Chosen;
    hide TableChoice.BestSelectors;
    hide TableChoice.CodeFor;
    var prev := TableChoice.ChosenParts(len, sel, nGroups, alphaSize, syms);
  }

  lemma ReadyIntro(c: Coded, alphaSize: nat, words: seq<int>, code: seq<seq<int>>)
    requires Sound(c, alphaSize) && BlockWriter.HoldsSyms(words, c.syms) && BlockWriter.CodeRows(code, c.tables)
    ensures BlockWriter.Ready(c, alphaSize, words, code)
  {
  }

  lemma SentStart(written: seq<int>, k: seq<int>)
    ensures Sent(written, k, written + k)
  {
  }

  lemma SentEnd(written: seq<int>, all: seq<int>)
    requires Sent(written, [], all)
    ensures written == all
  {
    assert written + [] == written;
  }

  lemma PtrWords(p: seq<int>, n: nat)
    requires IsPermutation(p, n) && n <= 900_000
    ensures Words(p)
  {
  }

  lemma SortedFacts(b: seq<int>, p: seq<int>)
    requires SortedRotations(b, p)
    ensures IsPermutation(p, |b|) && |p| == |b|
  {
  }

  /** The bits of a block have been appended. */
  ghost predicate Appended(before: seq<int>, after: seq<int>, crc: nat, origPtr: nat, c: Coded, codes: seq<nat>,
      alphaSize: nat) {
    Sound(c, alphaSize) && Carries(c, codes) && after == before + Block(crc, origPtr, c, codes, alphaSize, [])
  }

  lemma AppendedIntro(before: seq<int>, mid: seq<int>, after: seq<int>, crc: nat, origPtr: nat, c: Coded,
      codes: seq<nat>, alphaSize: nat)
    requires Sound(c, alphaSize) && Carries(c, codes) && mid == before + Header(crc, origPtr, []) &&
      after == mid + Body(c, codes, alphaSize, [])
    ensures Appended(before, after, crc, origPtr, c, codes, alphaSize)
  {
    hide Header;
    hide Body;
    hide Block;
    hide Sound;
    hide SelectorCodes.Codes;
    BlockAppend(crc, origPtr, c, codes, alphaSize, []);
    assert before + Header(crc, origPtr, []) + Body(c, codes, alphaSize, []) ==
      before + (Header(crc, origPtr, []) + Body(c, codes, alphaSize, []));
  }

  /** BZ2_compressBlock for a block of at least one byte. The work arrays are fresh: nothing in them
      is carried from one block to the next. */
  method CompressBlock(w: BitWriter, b: seq<int>, inUse: array<bool>, blockCRC: nat, workFactor: int)
    returns (ghost c: Coded, ghost codes: seq<nat>, ghost nInUse': nat, ghost origPtr': nat)
    requires w.Valid() && 0 < |b| <= 900_000 && Keys(b, 256) && inUse.Length == 256 && Marks(inUse[..], b)
    modifies w`zbits, w`bsBuff, w`bsLive
    ensures w.Valid() && Encodes(c, nInUse', origPtr', b) && Fitted(c, nInUse', b)
    ensures Appended(old(w.Written()), w.Written(), blockCRC, origPtr', c, codes, nInUse' + 2)
  {
    hide *;
    var nblock := |b|;
    var block, quadrant := new int[nblock + 34](i => if 0 <= i < |b| then b[i] else 0), new int[nblock + 34];
    var arr1, ftab, bhtab := new int[nblock], new int[65537], new bv32[3 + nblock / 32];
    assert block[..nblock] == b;
    var origPtr := BlockSort.Sort(arr1, block, quadrant, ftab, bhtab, nblock, workFactor);
    ghost var p := arr1[..];
    assert arr1[..nblock] == p;
    SortedFacts(b, p);
    PtrWords(p, nblock);
    ghost var before := w.Written();
    SentStart(before, Header(blockCRC, origPtr, []));
    BlockWriter.WriteHeader(w, blockCRC, origPtr, [], before + Header(blockCRC, origPtr, []));
    ghost var mid := w.Written();
    SentEnd(mid, before + Header(blockCRC, origPtr, []));
    var mtfFreq := new int[258];
    var nMTF, nInUse;
    ghost var nums;
    MarksHold(inUse[..], b);
    nMTF, nInUse, nums := GenerateMtfValues(arr1, block, nblock, inUse, mtfFreq, b, p);
    ghost var syms := Symbols(Iota(nInUse), nums, 0, nInUse + 1);
    c, codes := SendMTFValues(w, inUse, arr1[..], nMTF, mtfFreq[..], nInUse, nums, syms);
    AppendedIntro(before, mid, w.Written(), blockCRC, origPtr, c, codes, nInUse + 2);
    FittedIntro(c, nInUse, b);
    EncodesIntro(c, nInUse, origPtr, b, p, nums);
    nInUse', origPtr' := nInUse, origPtr;
  }
}
