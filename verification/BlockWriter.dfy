/** compress.c, the sending half of sendMTFValues and of BZ2_compressBlock. Every method says what it
    has written in terms of the bits k that are to follow. */
module BlockWriter {
  import opened Bits
  import opened BitIO
  import opened CanonicalCode
  import opened BlockFormat
  import MtfEncoder
  import SelectorCodes

  /** Which groups of sixteen bytes are in use. */
  method FindGroups(inUse: array<bool>) returns (inUse16: array<bool>)
    requires inUse.Length == 256
    ensures fresh(inUse16) && GroupsFound(inUse16[..], inUse[..])
  {
    inUse16 := new bool[16];
    var i := 0;
    while i < 16
      invariant 0 <= i <= 16 && forall g :: 0 <= g < i ==> inUse16[g] == GroupUsed(inUse[..], g)
    {
      inUse16[i] := false;
      var j := 0;
      while j < 16
        invariant 0 <= j <= 16 && forall g :: 0 <= g < i ==> inUse16[g] == GroupUsed(inUse[..], g)
        invariant inUse16[i] <==> exists c :: 16 * i <= c < 16 * i + j && inUse[c]
      {
        if inUse[i * 16 + j] { inUse16[i] := true; }
        j := j + 1;
      }
      assert inUse16[i] == GroupUsed(inUse[..], i);
      i := i + 1;
    }
  }

  lemma FlagsAt(inUse: seq<bool>, i: nat, k: seq<int>)
    requires |inUse| == 256 && i < 16
    ensures Flags(inUse, i, k) == Put(if GroupUsed(inUse, i) then 1 else 0, 1, Flags(inUse, i + 1, k))
    ensures Flags(inUse, 16, k) == k && Details(inUse, 16, k) == k && Pow2(1) == 2
    ensures Details(inUse, i, k) ==
      if GroupUsed(inUse, i) then Members(inUse, 16 * i, 16 * i + 16, Details(inUse, i + 1, k))
      else Details(inUse, i + 1, k)
  {
  }

  lemma MembersAt(inUse: seq<bool>, c: nat, e: nat, k: seq<int>)
    requires c < e <= |inUse|
    ensures Members(inUse, c, e, k) == Put(if inUse[c] then 1 else 0, 1, Members(inUse, c + 1, e, k)) &&
      Members(inUse, e, e, k) == k
    ensures Pow2(1) == 2
  {
  }

  /** The sixteen bytes of a group. */
  method WriteMembers(w: BitWriter, inUse: array<bool>, i: nat, ghost k: seq<int>, ghost all: seq<int>)
    requires w.Valid() && inUse.Length == 256 && i < 16
    requires Sent(w.Written(), Members(inUse[..], 16 * i, 16 * i + 16, k), all)
    modifies w`zbits, w`bsBuff, w`bsLive
    ensures w.Valid() && Sent(w.Written(), k, all)
  {
    hide *;
    ghost var u := inUse[..];
    var j := 0;
    MembersAt(u, 16 * i, 16 * i + 16, k);
    while j < 16
      invariant 0 <= j <= 16 && w.Valid() && inUse[..] == u
      invariant Sent(w.Written(), Members(u, 16 * i + j, 16 * i + 16, k), all)
    {
      MembersAt(u, 16 * i + j, 16 * i + 16, k);
      PutBits(w, 1, if inUse[i * 16 + j] then 1 else 0, Members(u, 16 * i + j + 1, 16 * i + 16, k), all);
      j := j + 1;
    }
  }

  ghost predicate GroupsFound(inUse16: seq<bool>, inUse: seq<bool>) {
    |inUse16| == 16 && |inUse| == 256 && forall i :: 0 <= i < 16 ==> inUse16[i] == GroupUsed(inUse, i)
  }

  lemma GroupFound(inUse16: seq<bool>, inUse: seq<bool>, i: nat)
    requires GroupsFound(inUse16, inUse) && i < 16
    ensures |inUse16| == 16 && |inUse| == 256 && inUse16[i] == GroupUsed(inUse, i)
  {
  }

  method WriteFlags(w: BitWriter, inUse16: array<bool>, ghost u: seq<bool>, ghost k: seq<int>, ghost all: seq<int>)
    requires w.Valid() && GroupsFound(inUse16[..], u)
    requires Sent(w.Written(), Flags(u, 0, k), all)
    modifies w`zbits, w`bsBuff, w`bsLive
    ensures w.Valid() && Sent(w.Written(), k, all)
  {
    hide *;
    ghost var found := inUse16[..];
    var i := 0;
    GroupFound(found, u, 0);
    FlagsAt(u, 0, k);
    while i < 16
      invariant 0 <= i <= 16 && w.Valid() && inUse16[..] == found
      invariant Sent(w.Written(), Flags(u, i, k), all)
    {
      FlagsAt(u, i, k);
      GroupFound(found, u, i);
      PutBits(w, 1, if inUse16[i] then 1 else 0, Flags(u, i + 1, k), all);
      i := i + 1;
    }
  }

  method WriteDetails(w: BitWriter, inUse: array<bool>, inUse16: array<bool>, ghost k: seq<int>, ghost all: seq<int>)
    requires w.Valid() && GroupsFound(inUse16[..], inUse[..]) && inUse.Length == 256
    requires Sent(w.Written(), Details(inUse[..], 0, k), all)
    modifies w`zbits, w`bsBuff, w`bsLive
    ensures w.Valid() && Sent(w.Written(), k, all)
  {
    hide *;
    ghost var u, found := inUse[..], inUse16[..];
    var i := 0;
    GroupFound(found, u, 0);
    FlagsAt(u, 0, k);
    while i < 16
      invariant 0 <= i <= 16 && w.Valid() && inUse16[..] == found && inUse[..] == u
      invariant Sent(w.Written(), Details(u, i, k), all)
    {
      FlagsAt(u, i, k);
      GroupFound(found, u, i);
      if inUse16[i] {
        WriteMembers(w, inUse, i, Details(u, i + 1, k), all);
      }
      i := i + 1;
    }
  }

  lemma MapIs(u: seq<bool>, k: seq<int>)
    requires |u| == 256
    ensures MapBits(u, k) == Flags(u, 0, Details(u, 0, k))
  {
  }

  /** Transmit the mapping table. */
  method WriteMap(w: BitWriter, inUse: array<bool>, ghost k: seq<int>, ghost all: seq<int>)
    requires w.Valid() && inUse.Length == 256
    requires Sent(w.Written(), MapBits(inUse[..], k), all)
    modifies w`zbits, w`bsBuff, w`bsLive
    ensures w.Valid() && Sent(w.Written(), k, all)
  {
    hide *;
    ghost var u := inUse[..];
    MapIs(u, k);
    var inUse16 := FindGroups(inUse);
    WriteFlags(w, inUse16, u, Details(u, 0, k), all);
    WriteDetails(w, inUse, inUse16, k, all);
  }

  lemma UnaryAt(j: nat, k: seq<int>)
    ensures Unary(0, k) == Put(0, 1, k) && (j > 0 ==> Unary(j, k) == Put(1, 1, Unary(j - 1, k))) && Pow2(1) == 2
  {
  }

  lemma SelectorsAt(codes: seq<nat>, i: nat, k: seq<int>)
    requires i < |codes|
    ensures Selectors(codes, i, k) == Unary(codes[i], Selectors(codes, i + 1, k))
  {
  }

  lemma SelectorsEnd(codes: seq<nat>, k: seq<int>)
    ensures Selectors(codes, |codes|, k) == k
  {
  }

  method WriteSelectors(w: BitWriter, selectorMtf: array<int>, nSelectors: nat, ghost codes: seq<nat>,
      ghost k: seq<int>, ghost all: seq<int>)
    requires w.Valid() && selectorMtf.Length == nSelectors && selectorMtf[..] == codes
    requires Sent(w.Written(), Selectors(codes, 0, k), all)
    modifies w`zbits, w`bsBuff, w`bsLive
    ensures w.Valid() && Sent(w.Written(), k, all)
  {
    hide *;
    SelectorsEnd(codes, k);
    var i := 0;
    while i < nSelectors
      invariant 0 <= i <= nSelectors && w.Valid() && selectorMtf[..] == codes
      invariant Sent(w.Written(), Selectors(codes, i, k), all)
    {
      SelectorsAt(codes, i, k);
      ghost var next := Selectors(codes, i + 1, k);
      assert selectorMtf[i] == codes[i];
      var j := 0;
      while j < selectorMtf[i]
        invariant 0 <= j <= selectorMtf[i] == codes[i] && w.Valid() && selectorMtf[..] == codes
        invariant Sent(w.Written(), Unary(codes[i] - j, next), all)
      {
        UnaryAt(codes[i] - j, next);
        PutBits(w, 1, 1, Unary(codes[i] - j - 1, next), all);
        j := j + 1;
      }
      UnaryAt(0, next);
      PutBits(w, 1, 0, next, all);
      i := i + 1;
    }
  }

  lemma StepsAt(c: int, l: int, k: seq<int>)
    ensures c < l ==> Steps(c, l, k) == Put(2, 2, Steps(c + 1, l, k))
    ensures c > l ==> Steps(c, l, k) == Put(3, 2, Steps(c - 1, l, k))
    ensures c == l ==> Steps(c, l, k) == Put(0, 1, k)
    ensures Pow2(1) == 2 && Pow2(2) == 4 && Pow2(5) == 32
  {
  }

  lemma DeltasAt(lens: seq<int>, c: int, i: nat, k: seq<int>)
    requires i < |lens|
    ensures Deltas(lens, c, i, k) == Steps(c, lens[i], Deltas(lens, lens[i], i + 1, k))
  {
  }

  lemma DeltasEnd(lens: seq<int>, c: int, k: seq<int>)
    ensures Deltas(lens, c, |lens|, k) == k
  {
  }

  lemma TableIs(len: seq<int>, k: seq<int>)
    requires 0 < |len| && LensOk(len)
    ensures 1 <= len[0] <= 20 && Table(len, k) == Put(len[0], 5, Deltas(len, len[0], 0, k))
  {
  }

  /** The lengths of one table. */
  method WriteTable(w: BitWriter, len: seq<int>, ghost k: seq<int>, ghost all: seq<int>)
    requires w.Valid() && 0 < |len| && LensOk(len)
    requires Sent(w.Written(), Table(len, k), all)
    modifies w`zbits, w`bsBuff, w`bsLive
    ensures w.Valid() && Sent(w.Written(), k, all)
  {
    hide *;
    TableIs(len, k);
    StepsAt(0, 0, k);
    var curr := len[0];
    PutBits(w, 5, curr, Deltas(len, len[0], 0, k), all);
    var i := 0;
    while i < |len|
      invariant 0 <= i <= |len| && w.Valid()
      invariant Sent(w.Written(), Deltas(len, curr, i, k), all)
    {
      DeltasAt(len, curr, i, k);
      curr := WriteSteps(w, curr, len[i], Deltas(len, len[i], i + 1, k), all);
      i := i + 1;
    }
    DeltasEnd(len, curr, k);
  }

  /** From the current length to the next. */
  method WriteSteps(w: BitWriter, from: int, to': int, ghost k: seq<int>, ghost all: seq<int>) returns (curr: int)
    requires w.Valid()
    requires Sent(w.Written(), Steps(from, to', k), all)
    modifies w`zbits, w`bsBuff, w`bsLive
    ensures w.Valid() && curr == to' && Sent(w.Written(), k, all)
  {
    hide *;
    curr := from;
    while curr < to'
      invariant w.Valid() && (curr <= to' || curr == from)
      invariant Sent(w.Written(), Steps(curr, to', k), all)
    {
      StepsAt(curr, to', k);
      PutBits(w, 2, 2, Steps(curr + 1, to', k), all);
      curr := curr + 1;
    }
    while curr > to'
      invariant w.Valid() && curr >= to'
      invariant Sent(w.Written(), Steps(curr, to', k), all)
    {
      StepsAt(curr, to', k);
      PutBits(w, 2, 3, Steps(curr - 1, to', k), all);
      curr := curr - 1;
    }
    StepsAt(curr, to', k);
    PutBits(w, 1, 0, k, all);
  }

  lemma TablesAt(tables: seq<seq<int>>, alphaSize: nat, t: nat, k: seq<int>)
    requires Lens(tables, alphaSize) && t < |tables|
    ensures |tables[t]| == alphaSize > 0 && LensOk(tables[t]) && tables[t][0] >= 0
    ensures Tables(tables, alphaSize, t, k) == Table(tables[t], Tables(tables, alphaSize, t + 1, k))
    ensures Tables(tables, alphaSize, |tables|, k) == k
  {
  }

  method WriteTables(w: BitWriter, len: seq<seq<int>>, alphaSize: nat, ghost k: seq<int>, ghost all: seq<int>)
    requires w.Valid() && |len| > 0 && Lens(len, alphaSize)
    requires Sent(w.Written(), Tables(len, alphaSize, 0, k), all)
    modifies w`zbits, w`bsBuff, w`bsLive
    ensures w.Valid() && Sent(w.Written(), k, all)
  {
    hide *;
    var t := 0;
    TablesAt(len, alphaSize, 0, k);
    while t < |len|
      invariant 0 <= t <= |len| && w.Valid()
      invariant Sent(w.Written(), Tables(len, alphaSize, t, k), all)
    {
      TablesAt(len, alphaSize, t, k);
      WriteTable(w, len[t], Tables(len, alphaSize, t + 1, k), all);
      t := t + 1;
    }
  }

  /* ---------- the symbols ---------- */

  /** The 16-bit halves of arr1 hold the symbols. */
  ghost predicate HoldsSyms(a: seq<int>, syms: seq<int>) {
    MtfEncoder.Words(a) && |syms| <= 2 * |a| && forall k {:trigger syms[k]} ::
    0 <= k < |syms| ==> MtfEncoder.Half(a[k / 2], k) == syms[k]
  }

  lemma SymAt(a: seq<int>, syms: seq<int>, i: nat)
    requires HoldsSyms(a, syms) && i < |syms|
    ensures i / 2 < |a| && 0 <= a[i / 2] < 0x1_0000_0000 && MtfEncoder.Half(a[i / 2], i) == syms[i]
  {
  }

  /** The rows of code hold the codes of the tables. */
  ghost predicate CodeRows(code: seq<seq<int>>, tables: seq<seq<int>>) {
    |code| >= |tables| && forall t {:trigger tables[t]} :: 0 <= t < |tables| ==> CodeRow(code[t], tables[t])
  }

  ghost predicate CodeRow(code: seq<int>, lens: seq<int>) {
    |lens| <= |code| && forall s :: 0 <= s < |lens| ==> lens[s] > 0 && code[s] == Code(lens, s)
  }

  lemma DataAt(c: Coded, alphaSize: nat, i: nat, k: seq<int>)
    requires Sound(c, alphaSize) && i < |c.syms|
    ensures i / 50 < |c.selectors| && c.selectors[i / 50] < |c.tables| &&
      InForce(c, alphaSize, i) == c.tables[c.selectors[i / 50]]
    ensures 0 <= c.syms[i] < alphaSize && 1 <= InForce(c, alphaSize, i)[c.syms[i]] <= 20
    ensures var lens, s := InForce(c, alphaSize, i), c.syms[i];
      Code(lens, s) < Pow2(lens[s]) &&
      Data(c, alphaSize, i, k) == Put(Code(lens, s), lens[s], Data(c, alphaSize, i + 1, k))
  {
    CodeFits(InForce(c, alphaSize, i), c.syms[i], 20);
  }

  lemma DataEnd(c: Coded, alphaSize: nat, k: seq<int>)
    requires Sound(c, alphaSize)
    ensures Data(c, alphaSize, |c.syms|, k) == k && 2 <= |c.tables| <= 6 && |c.selectors| == (|c.syms| + 49) / 50 &&
      Lens(c.tables, alphaSize)
  {
  }

  /** The words hold the symbols, code the codes of the coded block. */
  ghost predicate Ready(c: Coded, alphaSize: nat, words: seq<int>, code: seq<seq<int>>) {
    Sound(c, alphaSize) && HoldsSyms(words, c.syms) && CodeRows(code, c.tables)
  }

  /** Symbol i is v, coded by table sel. */
  ghost predicate Item(c: Coded, alphaSize: nat, code: seq<seq<int>>, i: nat, sel: nat, v: int, k: seq<int>) {
    Sound(c, alphaSize) && i < |c.syms| && sel < |c.tables| && sel < |code| && 0 <= v < |c.tables[sel]| &&
    v < |code[sel]| &&
    1 <= c.tables[sel][v] <= 20 && 0 <= code[sel][v] < Pow2(c.tables[sel][v]) &&
    Data(c, alphaSize, i, k) == Put(code[sel][v], c.tables[sel][v], Data(c, alphaSize, i + 1, k))
  }

  /** What is looked up to write symbol i. */
  lemma ReadyAt(c: Coded, alphaSize: nat, words: seq<int>, code: seq<seq<int>>, i: nat, k: seq<int>)
    requires Ready(c, alphaSize, words, code) && i < |c.syms|
    ensures i / 2 < |words| && 0 <= words[i / 2] < 0x1_0000_0000 && i / 50 < |c.selectors|
    ensures Item(c, alphaSize, code, i, c.selectors[i / 50], MtfEncoder.Half(words[i / 2], i), k)
  {
    hide Data;
    hide Put;
    hide Code;
    hide Pow2;
    DataAt(c, alphaSize, i, k);
    SymAt(words, c.syms, i);
    assert CodeRow(code[c.selectors[i / 50]], c.tables[c.selectors[i / 50]]);
  }

  lemma SameGroup(gs: nat, i: nat)
    requires gs % 50 == 0 && gs <= i < gs + 50
    ensures i / 50 == gs / 50
  {
  }

  method WriteSymbol(w: BitWriter, v: int, sel: nat, len: seq<seq<int>>, code: seq<seq<int>>, ghost i: nat,
                     ghost c: Coded, ghost alphaSize: nat, ghost k: seq<int>, ghost all: seq<int>)
    requires w.Valid() && Item(c, alphaSize, code, i, sel, v, k) && len == c.tables && Sound(c, alphaSize) &&
      i < |c.syms|
    requires Sent(w.Written(), Data(c, alphaSize, i, k), all)
    modifies w`zbits, w`bsBuff, w`bsLive
    ensures w.Valid() && Sent(w.Written(), Data(c, alphaSize, i + 1, k), all)
  {
    hide Data;
    hide Put;
    hide Sound;
    hide Sent;
    hide Pow2;
    hide BitWriter.Valid;
    hide BitWriter.Written;
    PutBits(w, len[sel][v], code[sel][v], Data(c, alphaSize, i + 1, k), all);
  }

  /** The symbols of one group. */
  method WriteGroup(w: BitWriter, words: seq<int>, gs: nat, ge: nat, sel: nat, len: seq<seq<int>>, code: seq<seq<int>>,
                    ghost c: Coded, ghost alphaSize: nat, ghost k: seq<int>, ghost all: seq<int>)
    requires w.Valid() && Ready(c, alphaSize, words, code) && len == c.tables && gs <= ge < |c.syms| && gs % 50 == 0 &&
      ge < gs + 50
    requires gs / 50 < |c.selectors| && sel == c.selectors[gs / 50]
    requires Sent(w.Written(), Data(c, alphaSize, gs, k), all)
    modifies w`zbits, w`bsBuff, w`bsLive
    ensures w.Valid() && Sent(w.Written(), Data(c, alphaSize, ge + 1, k), all)
  {
    hide *;
    ReadySound(c, alphaSize, words, code);
    var i := gs;
    while i <= ge   // full groups are unrolled in the source when there are six tables
      invariant gs <= i <= ge + 1 && w.Valid()
      invariant Sent(w.Written(), Data(c, alphaSize, i, k), all)
    {
      ReadyAt(c, alphaSize, words, code, i, k);
      SameGroup(gs, i);
      WriteSymbol(w, MtfEncoder.Half(words[i / 2], i), sel, len, code, i, c, alphaSize, k, all);
      i := i + 1;
    }
  }

  lemma ReadySound(c: Coded, alphaSize: nat, words: seq<int>, code: seq<seq<int>>)
    requires Ready(c, alphaSize, words, code)
    ensures Sound(c, alphaSize) && G_SIZE == 50
  {
  }

  lemma GroupStart(c: Coded, alphaSize: nat, g: nat)
    requires Sound(c, alphaSize) && 50 * g < |c.syms|
    ensures g < |c.selectors| && c.selectors[g] >= 0 && (50 * g) / 50 == g
  {
  }

  /** The block data proper: fifty symbols at a time, each group by the table selected for it. */
  method WriteData(w: BitWriter, words: seq<int>, nMTF: nat, selector: seq<nat>, len: seq<seq<int>>,
      code: seq<seq<int>>,
                   ghost c: Coded, ghost alphaSize: nat, ghost k: seq<int>, ghost all: seq<int>)
    requires w.Valid() && Ready(c, alphaSize, words, code) && nMTF == |c.syms| && selector == c.selectors &&
      len == c.tables
    requires Sent(w.Written(), Data(c, alphaSize, 0, k), all)
    modifies w`zbits, w`bsBuff, w`bsLive
    ensures w.Valid() && Sent(w.Written(), k, all)
  {
    hide *;
    ReadySound(c, alphaSize, words, code);
    DataEnd(c, alphaSize, k);
    var gs, selCtr := 0, 0;
    while gs < nMTF
      invariant 0 <= gs <= nMTF && w.Valid() && (gs < nMTF ==> gs == 50 * selCtr) &&
        (gs == nMTF ==> selCtr == |selector|)
      invariant Sent(w.Written(), Data(c, alphaSize, gs, k), all)
    {
      var ge := gs + G_SIZE - 1;
      if ge >= nMTF { ge := nMTF - 1; }
      GroupStart(c, alphaSize, selCtr);
      WriteGroup(w, words, gs, ge, selector[selCtr], len, code, c, alphaSize, k, all);
      gs := ge + 1;
      selCtr := selCtr + 1;
    }
    assert selCtr == |selector|;  // assert 3007 of the source
  }

  /* ---------- the whole block ---------- */

  lemma BodyParts(c: Coded, codes: seq<nat>, alphaSize: nat, k: seq<int>)
    requires Sound(c, alphaSize) && |codes| == |c.selectors|
    ensures |c.inUse| == 256 && 2 <= |c.tables| <= 6 && 1 <= |codes| <= 18002 && Lens(c.tables, alphaSize)
    ensures forall i :: 0 <= i < |c.selectors| ==> c.selectors[i] < |c.tables|
    ensures Body(c, codes, alphaSize, k) ==
      MapBits(c.inUse,
      Put(|c.tables|, 3,
      Put(|codes|, 15, Selectors(codes, 0, Tables(c.tables, alphaSize, 0, Data(c, alphaSize, 0, k))))))
  {
  }

  /** The bytes in use and the selectors. */
  method WriteFront(w: BitWriter, inUse: array<bool>, nGroups: nat, nSelectors: nat, selectorMtf: array<int>,
      ghost codes: seq<nat>, ghost k: seq<int>, ghost all: seq<int>)
    requires w.Valid() && inUse.Length == 256 && nGroups <= 6 && nSelectors <= 18002 &&
      selectorMtf.Length == nSelectors && selectorMtf[..] == codes
    requires Sent(w.Written(), MapBits(inUse[..], Put(nGroups, 3, Put(nSelectors, 15, Selectors(codes, 0, k)))), all)
    modifies w`zbits, w`bsBuff, w`bsLive
    ensures w.Valid() && Sent(w.Written(), k, all)
  {
    hide *;
    Pow2Small();
    ghost var sels := Selectors(codes, 0, k);
    WriteMap(w, inUse, Put(nGroups, 3, Put(nSelectors, 15, sels)), all);
    PutBits(w, 3, nGroups, Put(nSelectors, 15, sels), all);
    PutBits(w, 15, nSelectors, sels, all);
    WriteSelectors(w, selectorMtf, nSelectors, codes, k, all);
  }

  lemma Pow2Small()
    ensures Pow2(1) == 2 && Pow2(2) == 4 && Pow2(3) == 8 && Pow2(5) == 32 && Pow2(8) == 256 && Pow2(15) == 0x8000 &&
      Pow2(24) == 0x100_0000
  {
    Pow2Constants();
    assert Pow2(3) == 8;
    assert Pow2(5) == 32;
    assert Pow2(7) == 128;
    Pow2Sum(8, 7);
  }

  /** sendMTFValues after the tables and selectors have been chosen. */
  method WriteBody(w: BitWriter, inUse: array<bool>, selector: array<int>, nSelectors: nat, alphaSize: nat,
      len: seq<seq<int>>,
                   code: seq<seq<int>>, words: seq<int>, nMTF: nat, ghost c: Coded, ghost codes: seq<nat>,
                   ghost k: seq<int>, ghost all: seq<int>)
    requires w.Valid() && Ready(c, alphaSize, words, code) && inUse[..] == c.inUse && len == c.tables &&
      nMTF == |c.syms|
    requires nSelectors == |c.selectors| <= selector.Length && selector[..nSelectors] == c.selectors
    requires SelectorCodes.AllIn(c.selectors, SelectorCodes.Tables(|len|)) &&
      codes == SelectorCodes.Codes(SelectorCodes.Tables(|len|), c.selectors)
    requires Sent(w.Written(), Body(c, codes, alphaSize, k), all)
    modifies w`zbits, w`bsBuff, w`bsLive
    ensures w.Valid() && Sent(w.Written(), k, all)
  {
    hide *;
    ReadySound(c, alphaSize, words, code);
    BodyParts(c, codes, alphaSize, k);
    forall i | 0 <= i < nSelectors ensures 0 <= selector[i] < |len| { assert selector[i] == selector[..nSelectors][i]; }
    ghost var data := Data(c, alphaSize, 0, k);
    ghost var tabs := Tables(c.tables, alphaSize, 0, data);
    var selectorMtf := SelectorCodes.EncodeSelectors(selector, nSelectors, |len|);
    WriteFront(w, inUse, |len|, nSelectors, selectorMtf, codes, tabs, all);
    WriteTables(w, len, alphaSize, data, all);
    WriteData(w, words, nMTF, selector[..nSelectors], len, code, c, alphaSize, k, all);
  }

  lemma WordIs(u: nat, k: seq<int>)
    ensures Word(u, k) ==
      Put(u / 0x100_0000 % 256, 8, Put(u / 0x1_0000 % 256, 8, Put(u / 256 % 256, 8, Put(u % 256, 8, k))))
  {
  }

  /** bsPutUInt32 */
  method PutUInt32(w: BitWriter, u: nat, ghost k: seq<int>, ghost all: seq<int>)
    requires w.Valid()
    requires Sent(w.Written(), Word(u, k), all)
    modifies w`zbits, w`bsBuff, w`bsLive
    ensures w.Valid() && Sent(w.Written(), k, all)
  {
    hide *;
    Pow2Small();
    WordIs(u, k);
    PutBits(w, 8, u / 0x100_0000 % 256, Put(u / 0x1_0000 % 256, 8, Put(u / 256 % 256, 8, Put(u % 256, 8, k))), all);
    PutBits(w, 8, u / 0x1_0000 % 256, Put(u / 256 % 256, 8, Put(u % 256, 8, k)), all);
    PutBits(w, 8, u / 256 % 256, Put(u % 256, 8, k), all);
    PutBits(w, 8, u % 256, k, all);
  }

  lemma HeaderIs(crc: nat, origPtr: nat, k: seq<int>)
    ensures Header(crc, origPtr, k) ==
      Put(0x31, 8,
      Put(0x41, 8, Put(0x59, 8, Put(0x26, 8, Put(0x53, 8, Put(0x59, 8, Word(crc, Put(0, 1, Put(origPtr, 24, k)))))))))
  {
  }

  /** The block header: signature, checksum, randomisation bit, origPtr. */
  method WriteHeader(w: BitWriter, crc: nat, origPtr: nat, ghost k: seq<int>, ghost all: seq<int>)
    requires w.Valid() && origPtr < 0x100_0000
    requires Sent(w.Written(), Header(crc, origPtr, k), all)
    modifies w`zbits, w`bsBuff, w`bsLive
    ensures w.Valid() && Sent(w.Written(), k, all)
  {
    hide *;
    Pow2Small();
    HeaderIs(crc, origPtr, k);
    ghost var k2 := Put(0, 1, Put(origPtr, 24, k));
    ghost var k1 := Word(crc, k2);
    PutBits(w, 8, 0x31, Put(0x41, 8, Put(0x59, 8, Put(0x26, 8, Put(0x53, 8, Put(0x59, 8, k1))))), all);
    PutBits(w, 8, 0x41, Put(0x59, 8, Put(0x26, 8, Put(0x53, 8, Put(0x59, 8, k1)))), all);
    PutBits(w, 8, 0x59, Put(0x26, 8, Put(0x53, 8, Put(0x59, 8, k1))), all);
    PutBits(w, 8, 0x26, Put(0x53, 8, Put(0x59, 8, k1)), all);
    PutBits(w, 8, 0x53, Put(0x59, 8, k1), all);
    PutBits(w, 8, 0x59, k1, all);
    PutUInt32(w, crc, k2, all);
    PutBits(w, 1, 0, Put(origPtr, 24, k), all);
    PutBits(w, 24, origPtr, k, all);
  }
}
