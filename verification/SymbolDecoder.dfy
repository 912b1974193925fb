/** decompress.c, the loop that turns the coded symbols into the last column: tables are switched
    every fifty symbols, runs of the front byte are collected digit by digit. */
module SymbolDecoder {
  import opened ByteSeq
  import opened Counting
  import opened Bits
  import opened BitIO
  import opened CanonicalCode
  import opened BlockFormat
  import opened BlockReader
  import opened HuffmanTables
  import opened MoveToFront
  import opened MtfSymbols

  /* ---------- one symbol ---------- */

  /** Where GET_MTF_VAL stands after p symbols. */
  datatype Group = Group(no: int, pos: int, sel: int)

  ghost predicate Place(g: Group, selector: seq<int>, p: nat) {
    g.pos == (if p % 50 == 0 then 0 else 50 - p % 50) && g.no == (p + 49) / 50 - 1 &&
    (g.pos > 0 ==> 0 <= g.no < |selector| && g.sel == selector[g.no])
  }

  ghost predicate TablesReady(tables: seq<DecodeTable>, lens: seq<seq<int>>, selector: seq<int>, alphaSize: nat) {
    |tables| == |lens| && (forall i :: 0 <= i < |selector| ==> 0 <= selector[i] < |tables|) &&
    forall t {:trigger tables[t]} {:trigger lens[t]} ::
      0 <= t < |tables| ==> |lens[t]| == alphaSize && TableFor(tables[t], lens[t])
  }

  lemma PlaceStart(selector: seq<int>)
    ensures Place(Group(-1, 0, 0), selector, 0)
  {
  }

  lemma PlaceNew(g: Group, selector: seq<int>, p: nat)
    requires Place(g, selector, p) && g.pos == 0
    ensures g.no + 1 == p / 50 && g.no + 1 >= 0
    ensures g.no + 1 < |selector| ==> Place(Group(g.no + 1, 49, selector[g.no + 1]), selector, p + 1)
  {
  }

  lemma PlaceSame(g: Group, selector: seq<int>, p: nat)
    requires Place(g, selector, p) && g.pos != 0
    ensures 0 <= g.no < |selector| && g.sel == selector[g.no] && g.no == p / 50 &&
      Place(Group(g.no, g.pos - 1, g.sel), selector, p + 1)
  {
  }

  lemma TableAt(tables: seq<DecodeTable>, lens: seq<seq<int>>, selector: seq<int>, alphaSize: nat, i: nat)
    requires TablesReady(tables, lens, selector, alphaSize) && i < |selector|
    ensures |tables| == |lens| && 0 <= selector[i] < |tables|
    ensures |lens[selector[i]]| == alphaSize && TableFor(tables[selector[i]], lens[selector[i]])
  {
  }

  lemma BeginsRange(lens: seq<int>, s: int, stream: seq<int>)
    requires Begins(lens, s, stream)
    ensures 0 <= s < |lens|
  {
  }

  /** The stream starts with the code of the next symbol of the block. */
  lemma DataBegins(c: Coded, alphaSize: nat, p: nat, k: seq<int>, stream: seq<int>)
    requires Sound(c, alphaSize) && p < |c.syms| && stream == Data(c, alphaSize, p, k) && IsBits(stream)
    ensures p / 50 < |c.selectors| && c.selectors[p / 50] < |c.tables|
    ensures var lens := c.tables[c.selectors[p / 50]];
      Kraft(lens, 20) && Begins(lens, c.syms[p], stream) && stream[lens[c.syms[p]]..] == Data(c, alphaSize, p + 1, k)
  {
    var lens := InForce(c, alphaSize, p);
    assert stream == CodeBits(lens, c.syms[p]) + Data(c, alphaSize, p + 1, k);
  }

  /** GET_MTF_VAL. */
  method GetMtfVal(r: BitReader, tables: seq<DecodeTable>, selector: seq<int>, g: Group,
                   ghost lens: seq<seq<int>>, ghost alphaSize: nat, ghost p: nat, ghost c: Coded, ghost k: seq<int>)
    returns (res: Outcome, g': Group)
    requires r.Valid() && TablesReady(tables, lens, selector, alphaSize) && Place(g, selector, p) && Sound(c, alphaSize)
    modifies r
    ensures r.Valid()
    ensures res.NeedInput? ==> r.Spent()
    ensures |r.Remaining()| <= |old(r.Remaining())|
    ensures res.Symbol? ==>
      0 <= res.s < alphaSize && Place(g', selector, p + 1) && |r.Remaining()| < |old(r.Remaining())|
    ensures (lens == c.tables && selector == c.selectors && p < |c.syms| &&
             old(r.Remaining()) == Data(c, alphaSize, p, k)) ==>
      (res.Symbol? || (res.NeedInput? && r.more != [])) &&
      (res.Symbol? ==> res == Symbol(c.syms[p]) && r.Remaining() == Data(c, alphaSize, p + 1, k))
  {
    hide *;
    ghost var stream := r.Remaining();
    ghost var good := lens == c.tables && selector == c.selectors && p < |c.syms| && stream == Data(c, alphaSize, p, k);
    RemainingBits(r);
    if good { DataBegins(c, alphaSize, p, k, stream); }
    g' := g;
    if g'.pos == 0 {
      PlaceNew(g', selector, p);
      g' := g'.(no := g'.no + 1);
      if g'.no >= |selector| { return Outcome.DataError, g'; }
      g' := g'.(pos := G_SIZE, sel := selector[g'.no]);
      GroupSize();
    } else {
      PlaceSame(g', selector, p);
    }
    g' := g'.(pos := g'.pos - 1);
    TableAt(tables, lens, selector, alphaSize, g'.no);
    res := HuffmanTables.Decode(r, tables[g'.sel], lens[g'.sel]);
    if res.Symbol? {
      BeginsRange(lens[g'.sel], res.s, stream);
      BeginsLength(lens[g'.sel], res.s, stream);
      if good { PrefixFree(lens[g'.sel], res.s, c.syms[p], stream); }
    }
  }

  lemma GroupSize()
    ensures G_SIZE == 50
  {
  }

  lemma BeginsLength(lens: seq<int>, s: int, stream: seq<int>)
    requires Begins(lens, s, stream)
    ensures 1 <= lens[s] <= |stream|
  {
  }

  /* ---------- a run ---------- */

  lemma {:induction false} RunValueAppend(d: seq<int>, x: int)
    ensures RunValue(d + [x]) == RunValue(d) + (x + 1) * Pow2(|d|)
    decreases |d|
  {
    if d == [] {
      assert [] + [x] == [x] && [x][1..] == [];
    } else {
      RunValueAppend(d[1..], x);
      assert (d + [x])[1..] == d[1..] + [x];
      Twice(x + 1, Pow2(|d| - 1));
    }
  }

  lemma Twice(a: int, p: int)
    ensures 2 * (a * p) == a * (2 * p)
  {
  }

  lemma {:induction false} RunValueLarge(d: seq<int>)
    requires forall i :: 0 <= i < |d| ==> IsRun(d[i])
    ensures RunValue(d) >= Pow2(|d|) - 1
    decreases |d|
  {
    if d != [] {
      RunValueLarge(d[1..]);
      assert d[0] >= 0;
    }
  }

  /** The decoder's state agrees with the symbols: after p symbols, the last of them nextSym not yet
      acted upon, the rest stands for the bytes from nblock on. */
  ghost predicate Track(syms: seq<int>, eob: int, bytes: seq<int>, p: nat, y: seq<int>, nblock: int, nextSym: int) {
    eob > RUNB && 1 <= p <= |syms| && nextSym == syms[p - 1] && 0 <= nblock <= |bytes| &&
    Undo(y, syms[p - 1..], eob) == Some(bytes[nblock..])
  }

  /** In a run: the digits d have been read and nextSym after them. */
  ghost predicate InRun(syms: seq<int>, eob: int, bytes: seq<int>, q: nat, y: seq<int>, nblock: int, d: seq<int>,
      nextSym: int) {
    Track(syms, eob, bytes, q + 1, y, nblock, if d == [] then nextSym else d[0]) && q + |d| < |syms| &&
    nextSym == syms[q + |d|] &&
    syms[q..q + |d|] == d && forall i :: 0 <= i < |d| ==> IsRun(d[i])
  }

  lemma RunStart(syms: seq<int>, eob: int, bytes: seq<int>, p: nat, y: seq<int>, nblock: int, nextSym: int)
    requires Track(syms, eob, bytes, p, y, nblock, nextSym)
    ensures p >= 1 && InRun(syms, eob, bytes, p - 1, y, nblock, [], nextSym)
  {
    assert syms[p - 1..p - 1] == [];
  }

  /** The digits up to here begin the run; the stream goes on after a digit. */
  lemma {:induction false} DigitsAtLeast(s: seq<int>, m: nat)
    requires m <= |s| && forall i :: 0 <= i < m ==> IsRun(s[i])
    ensures RunDigits(s) >= m && (m < |s| && !IsRun(s[m]) ==> RunDigits(s) == m)
    decreases m
  {
    if m > 0 { DigitsAtLeast(s[1..], m - 1); }
  }

  /** What Undo says of a stream that starts with a run. */
  lemma UndoOfRun(y: seq<int>, s: seq<int>, eob: int, bytes: seq<int>)
    requires eob > RUNB && Undo(y, s, eob) == Some(bytes) && s != [] && IsRun(s[0])
    ensures RunDigits(s) < |s| && |y| > 0 && 0 <= RunValue(s[..RunDigits(s)]) <= |bytes|
    ensures bytes[..RunValue(s[..RunDigits(s)])] == Repeat(y[0], RunValue(s[..RunDigits(s)]))
    ensures Undo(y, s[RunDigits(s)..], eob) == Some(bytes[RunValue(s[..RunDigits(s)])..])
  {
    var k := RunDigits(s);
    var v := RunValue(s[..k]);
    var rest := Undo(y, s[k..], eob).value;
    assert bytes == Repeat(y[0], v) + rest;
    assert bytes[v..] == rest;
  }

  lemma InRunParts(syms: seq<int>, eob: int, bytes: seq<int>, q: nat, y: seq<int>, nblock: int, d: seq<int>,
      nextSym: int)
    requires InRun(syms, eob, bytes, q, y, nblock, d, nextSym)
    ensures eob > RUNB && q + |d| < |syms| && nextSym == syms[q + |d|] && 0 <= nblock <= |bytes|
    ensures Undo(y, syms[q..], eob) == Some(bytes[nblock..])
    ensures syms[q..][..|d|] == d && syms[q..][|d|] == nextSym && forall i :: 0 <= i < |d| ==> IsRun(syms[q..][i])
  {
    assert syms[q..][..|d|] == d;
    forall i | 0 <= i < |d| ensures IsRun(syms[q..][i]) { assert syms[q..][i] == d[i]; }
  }

  /** One more digit: it fits, and the next symbol exists. */
  lemma RunMore(syms: seq<int>, eob: int, bytes: seq<int>, q: nat, y: seq<int>, nblock: int, d: seq<int>, nextSym: int)
    requires InRun(syms, eob, bytes, q, y, nblock, d, nextSym) && IsRun(nextSym) && |bytes| <= 900_000
    ensures q + |d| + 1 < |syms| && Pow2(|d|) < 0x20_0000
    ensures InRun(syms, eob, bytes, q, y, nblock, d + [nextSym], syms[q + |d| + 1])
  {
    hide *;
    RunFits(syms, eob, bytes, q, y, nblock, d, nextSym);
    InRunAppend(syms, eob, bytes, q, y, nblock, d, nextSym);
  }

  lemma InRunAppend(syms: seq<int>, eob: int, bytes: seq<int>, q: nat, y: seq<int>, nblock: int, d: seq<int>,
      nextSym: int)
    requires InRun(syms, eob, bytes, q, y, nblock, d, nextSym) && IsRun(nextSym) && q + |d| + 1 < |syms|
    ensures InRun(syms, eob, bytes, q, y, nblock, d + [nextSym], syms[q + |d| + 1])
  {
    hide Track;
    hide IsRun;
    assert syms[q..q + |d| + 1] == syms[q..q + |d|] + [nextSym];
  }

  lemma RunFits(syms: seq<int>, eob: int, bytes: seq<int>, q: nat, y: seq<int>, nblock: int, d: seq<int>, nextSym: int)
    requires InRun(syms, eob, bytes, q, y, nblock, d, nextSym) && IsRun(nextSym) && |bytes| <= 900_000
    ensures q + |d| + 1 < |syms| && Pow2(|d|) < 0x20_0000
  {
    hide *;
    InRunParts(syms, eob, bytes, q, y, nblock, d, nextSym);
    var s := syms[q..];
    DigitsAtLeast(s, |d| + 1);
    UndoOfRun(y, s, eob, bytes[nblock..]);
    var all := s[..RunDigits(s)];
    forall i | 0 <= i < |all| ensures IsRun(all[i]) { DigitIsRun(s, i); }
    RunValueLarge(all);
    Pow2Twenty();
    if |d| >= 20 { Pow2Monotone(20, |all|); } else { Pow2Monotone(|d|, 20); }
  }

  lemma DigitIsRun(s: seq<int>, i: nat)
    requires i < RunDigits(s)
    ensures i < |s| && IsRun(s[i])
  {
  }

  lemma Pow2Twenty()
    ensures Pow2(20) == 0x10_0000
  {
    Pow2Constants();
    Pow2Sum(16, 4);
    assert Pow2(4) == 16;
  }

  /** The run is over. */
  lemma RunEnd(syms: seq<int>, eob: int, bytes: seq<int>, q: nat, y: seq<int>, nblock: int, d: seq<int>, nextSym: int)
    requires InRun(syms, eob, bytes, q, y, nblock, d, nextSym) && !IsRun(nextSym) && d != []
    ensures |y| > 0 && 0 <= RunValue(d) && nblock + RunValue(d) <= |bytes|
    ensures Track(syms, eob, bytes, q + |d| + 1, y, nblock + RunValue(d), nextSym)
    ensures forall i :: nblock <= i < nblock + RunValue(d) ==> bytes[i] == y[0]
  {
    hide *;
    InRunParts(syms, eob, bytes, q, y, nblock, d, nextSym);
    var s, b := syms[q..], bytes[nblock..];
    DigitsAtLeast(s, |d|);
    UndoOfRun(y, s, eob, b);
    RunDone(syms, eob, bytes, q, y, nblock, |d|, RunValue(d), nextSym);
  }

  lemma RunDone(syms: seq<int>, eob: int, bytes: seq<int>, q: nat, y: seq<int>, nblock: int, m: nat, v: nat,
      nextSym: int)
    requires eob > RUNB && q + m < |syms| && nextSym == syms[q + m] && 0 <= nblock && nblock + v <= |bytes| && |y| > 0
    requires bytes[nblock..][..v] == Repeat(y[0], v) && Undo(y, syms[q..][m..], eob) == Some(bytes[nblock..][v..])
    ensures Track(syms, eob, bytes, q + m + 1, y, nblock + v, nextSym)
    ensures forall i :: nblock <= i < nblock + v ==> bytes[i] == y[0]
  {
    hide Undo;
    assert syms[q..][m..] == syms[q + m..];
    assert bytes[nblock..][v..] == bytes[nblock + v..];
    forall i | nblock <= i < nblock + v ensures bytes[i] == y[0] {
      assert bytes[i] == bytes[nblock..][..v][i - nblock];
    }
  }

  /** The do-while loop: collect the digits of a run, least significant first. */
  method ReadRun(r: BitReader, tables: seq<DecodeTable>, selector: seq<int>, g: Group, nextSym: int,
                 ghost lens: seq<seq<int>>, ghost alphaSize: nat, ghost p: nat, ghost c: Coded, ghost k: seq<int>,
                 ghost eob: int, ghost bytes: seq<int>, ghost y: seq<int>, ghost nblock: int)
    returns (st: Status, es: int, g': Group, nextSym': int, ghost p': nat)
    requires r.Valid() && TablesReady(tables, lens, selector, alphaSize) && Place(g, selector, p) && Sound(c, alphaSize)
    requires IsRun(nextSym)
    modifies r
    ensures r.Valid()
    ensures st.Short? ==> r.Spent()
    ensures |r.Remaining()| <= |old(r.Remaining())|
    ensures st.Fine? ==>
      es >= 1 && Place(g', selector, p') && 0 <= nextSym' < alphaSize && !IsRun(nextSym') &&
      |r.Remaining()| < |old(r.Remaining())|
    ensures (lens == c.tables && selector == c.selectors && |bytes| <= 900_000 &&
      Track(c.syms, eob, bytes, p, y, nblock, nextSym) &&
             p <= |c.syms| && old(r.Remaining()) == Data(c, alphaSize, p, k)) ==>
      (st.Fine? || (st.Short? && r.more != [])) &&
      (st.Fine? ==>
        p' <= |c.syms| && r.Remaining() == Data(c, alphaSize, p', k) && |y| > 0 && nblock + es <= |bytes| &&
        Track(c.syms, eob, bytes, p', y, nblock + es, nextSym') && forall i ::
        nblock <= i < nblock + es ==> bytes[i] == y[0])
  {
    hide *;
    RunConstants();
    ghost var good :=
      lens == c.tables && selector == c.selectors && |bytes| <= 900_000 &&
      Track(c.syms, eob, bytes, p, y, nblock, nextSym) &&
      p <= |c.syms| && r.Remaining() == Data(c, alphaSize, p, k);
    g', nextSym', p' := g, nextSym, p;
    es := -1;
    var n := 1;
    ghost var d := [];
    if good { RunStart(c.syms, eob, bytes, p, y, nblock, nextSym); }
    RunNothing();
    while IsRunSym(nextSym')
      invariant r.Valid() && Place(g', selector, p') && |r.Remaining()| <= |old(r.Remaining())|
      invariant es + 1 == RunValue(d) && n == Pow2(|d|) && es + 1 >= |d|
      invariant d != [] ==> 0 <= nextSym' < alphaSize && |r.Remaining()| < |old(r.Remaining())|
      invariant d == [] ==> IsRun(nextSym')
      invariant good ==> p >= 1 && p' == p + |d| <= |c.syms| && r.Remaining() == Data(c, alphaSize, p', k) &&
                         InRun(c.syms, eob, bytes, p - 1, y, nblock, d, nextSym')
      decreases |r.Remaining()|
    {
      if good { RunMore(c.syms, eob, bytes, p - 1, y, nblock, d, nextSym'); }
      if n >= 2 * 1024 * 1024 { st := Corrupt; return; }
      RunValueAppend(d, nextSym');
      DigitStep(|d|, nextSym');
      if nextSym' == RUNA { es := es + (0 + 1) * n; } else if nextSym' == RUNB { es := es + (1 + 1) * n; }
      n := n * 2;
      ghost var digit := nextSym';
      var res;
      res, g' := GetMtfVal(r, tables, selector, g', lens, alphaSize, p', c, k);
      if !res.Symbol? {
        st := if res.DataError? then Corrupt else Short;
        return;
      }
      d := d + [digit];
      nextSym' := res.s;
      p' := p' + 1;
    }
    es := es + 1;
    st := Fine;
    if good { RunEnd(c.syms, eob, bytes, p - 1, y, nblock, d, nextSym'); }
  }

  predicate IsRunSym(s: int)
    ensures IsRunSym(s) <==> IsRun(s)
  {
    s == RUNA || s == RUNB
  }

  lemma RunConstants()
    ensures RUNA == 0 && RUNB == 1
  {
  }

  lemma RunNothing()
    ensures RunValue([]) == 0 && Pow2(0) == 1
  {
  }

  lemma DigitStep(m: nat, x: int)
    requires IsRun(x)
    ensures Pow2(m + 1) == 2 * Pow2(m) && (x + 1) * Pow2(m) >= 1 && 0 <= x <= 1
    ensures x == RUNA ==> (x + 1) * Pow2(m) == Pow2(m)
    ensures x == RUNB ==> (x + 1) * Pow2(m) == 2 * Pow2(m)
  {
  }

  /* ---------- the main loop ---------- */

  /** The first nblock cells of tt are bytes, and unz counts them. */
  ghost predicate Stored(tt: seq<int>, nblock: int, unz: seq<int>) {
    0 <= nblock <= |tt| && |unz| == 256 && (forall i :: 0 <= i < nblock ==> 0 <= tt[i] < 256) &&
    forall v :: 0 <= v < 256 ==> unz[v] == Count(tt, nblock, v)
  }

  /** They are the bytes that the numbers stand for. */
  ghost predicate Matches(tt: seq<int>, nblock: int, bytes: seq<int>, map256: seq<int>) {
    0 <= nblock <= |tt| && nblock <= |bytes| && |map256| == 256 &&
    forall i :: 0 <= i < nblock ==> 0 <= bytes[i] < 256 && tt[i] == map256[bytes[i]]
  }

  ghost predicate ByteTable(y: seq<int>) {
    |y| == 256 && AreBytes(y)
  }

  lemma {:induction false} CountAgain(s: seq<int>, t: seq<int>, i: nat, v: int)
    requires i <= |s| && i <= |t| && forall k :: 0 <= k < i ==> s[k] == t[k]
    ensures Count(s, i, v) == Count(t, i, v)
    decreases i
  {
    if i > 0 { CountAgain(s, t, i - 1, v); }
  }

  lemma {:induction false} CountRun(t: seq<int>, i: nat, n: nat, x: int, v: int)
    requires i + n <= |t| && forall k :: i <= k < i + n ==> t[k] == x
    ensures Count(t, i + n, v) == Count(t, i, v) + (if v == x then n else 0)
    decreases n
  {
    if n > 0 { CountRun(t, i, n - 1, x, v); }
  }

  /** n copies of the byte x stored. */
  lemma StoreRun(t: seq<int>, t': seq<int>, nblock: int, unz: seq<int>, n: nat, x: int)
    requires Stored(t, nblock, unz) && 0 <= x < 256 && |t'| == |t| && nblock + n <= |t|
    requires (forall k :: 0 <= k < nblock ==> t'[k] == t[k]) && forall k :: nblock <= k < nblock + n ==> t'[k] == x
    ensures |unz| == 256 && Stored(t', nblock + n, unz[x := unz[x] + n])
  {
    var u := unz[x := unz[x] + n];
    forall v | 0 <= v < 256 ensures u[v] == Count(t', nblock + n, v) {
      CountAgain(t, t', nblock, v);
      CountRun(t', nblock, n, x, v);
    }
  }

  lemma MatchRun(t: seq<int>, t': seq<int>, nblock: int, bytes: seq<int>, map256: seq<int>, n: nat, x: int)
    requires Matches(t, nblock, bytes, map256) && |t'| == |t| && nblock + n <= |t| && nblock + n <= |bytes| &&
      0 <= x < 256
    requires (forall k :: 0 <= k < nblock ==> t'[k] == t[k]) && forall k ::
      nblock <= k < nblock + n ==> t'[k] == map256[x] && bytes[k] == x
    ensures Matches(t', nblock + n, bytes, map256)
  {
  }

  /** The writing loop of a run; fails when the block would grow beyond nblockMAX. */
  method StoreCopies(tt: array<int>, uc: int, es0: nat, nblock0: nat, nblockMAX: nat) returns (st: Status, nblock: nat)
    requires nblock0 <= nblockMAX <= tt.Length
    modifies tt
    ensures !st.Short?
    ensures st.Fine? <==> nblock0 + es0 <= nblockMAX
    ensures st.Fine? ==> nblock == nblock0 + es0 && (forall k :: 0 <= k < nblock0 ==> tt[k] == old(tt[k])) &&
                         forall k :: nblock0 <= k < nblock ==> tt[k] == uc
  {
    var es := es0;
    nblock := nblock0;
    while es > 0
      invariant 0 <= es <= es0 && nblock == nblock0 + (es0 - es) <= nblockMAX
      invariant (forall k :: 0 <= k < nblock0 ==> tt[k] == old(tt[k])) && forall k ::
        nblock0 <= k < nblock ==> tt[k] == uc
    {
      if nblock >= nblockMAX { return Corrupt, nblock; }
      tt[nblock] := uc;
      nblock := nblock + 1;
      es := es - 1;
    }
    st := Fine;
  }

  lemma TrackLiteral(syms: seq<int>, eob: int, bytes: seq<int>, p: nat, y: seq<int>, nblock: int, s: int)
    requires Track(syms, eob, bytes, p, y, nblock, s) && !IsRun(s) && s != eob
    ensures 1 <= s - 1 + 1 && 0 <= s - 1 < |y| && nblock < |bytes| && bytes[nblock] == y[s - 1]
    ensures p < |syms| && Track(syms, eob, bytes, p + 1, ToFront(y, s - 1), nblock + 1, syms[p])
  {
    var t, b := syms[p - 1..], bytes[nblock..];
    assert t[0] == s && t[1..] == syms[p..];
    assert b[1..] == bytes[nblock + 1..];
    var rest := Undo(ToFront(y, s - 1), t[1..], eob).value;
    assert b == [y[s - 1]] + rest;
    assert b[1..] == rest;
  }

  lemma TrackEnd(syms: seq<int>, eob: int, bytes: seq<int>, p: nat, y: seq<int>, nblock: int)
    requires Track(syms, eob, bytes, p, y, nblock, eob)
    ensures nblock == |bytes|
  {
    assert syms[p - 1..][0] == eob;
  }

  lemma TrackStart(syms: seq<int>, eob: int, bytes: seq<int>, y: seq<int>)
    requires eob > RUNB && Undo(y, syms, eob) == Some(bytes)
    ensures |syms| >= 1 && Track(syms, eob, bytes, 1, y, 0, syms[0])
  {
    assert syms[0..] == syms && bytes[0..] == bytes;
  }

  lemma FrontOf(a: seq<int>, base: seq<int>, y: seq<int>)
    requires Blocked(a, base, y)
    ensures |a| == 4096 && |base| == 16 && 0 <= base[0] < 4096 && |y| == 256 && a[base[0]] == y[0]
  {
    BlockedAt(a, base, y, 0, 0);
  }

  lemma IdentityBytes()
    ensures ByteTable(Identity())
  {
  }

  lemma ToFrontBytes(y: seq<int>, j: nat)
    requires ByteTable(y) && j < 256
    ensures ByteTable(ToFront(y, j)) && 0 <= y[j] < 256
  {
  }

  lemma StoredStart(tt: seq<int>, unz: seq<int>, bytes: seq<int>, map256: seq<int>)
    requires |unz| == 256 == |map256| && forall v :: 0 <= v < 256 ==> unz[v] == 0
    ensures Stored(tt, 0, unz) && Matches(tt, 0, bytes, map256)
  {
  }

  /** The end symbol is the last one and occurs nowhere else. */
  ghost predicate Ends(syms: seq<int>, eob: int) {
    |syms| > 0 && syms[|syms| - 1] == eob && forall i :: 0 <= i < |syms| - 1 ==> syms[i] != eob
  }

  /** What the compressor's symbols promise the decoder, after p of them. */
  ghost predicate Going(c: Coded, alphaSize: nat, k: seq<int>, bytes: seq<int>, map256: seq<int>,
                        p: nat, y: seq<int>, tt: seq<int>, nblock: int, nextSym: int, stream: seq<int>) {
    Sound(c, alphaSize) && Ends(c.syms, alphaSize - 1) && p <= |c.syms| && stream == Data(c, alphaSize, p, k) &&
    Track(c.syms, alphaSize - 1, bytes, p, y, nblock, nextSym) && Matches(tt, nblock, bytes, map256)
  }

  /** A run: its byte is stored es times. */
  lemma GoingRun(c: Coded, alphaSize: nat, k: seq<int>, bytes: seq<int>, map256: seq<int>, p: nat, y: seq<int>,
      tt: seq<int>, nblock: int,
                 p': nat, es: nat, tt': seq<int>, nextSym: int, stream: seq<int>)
    requires Sound(c, alphaSize) && Ends(c.syms, alphaSize - 1) && p' <= |c.syms| && stream == Data(c, alphaSize, p', k)
    requires Track(c.syms, alphaSize - 1, bytes, p', y, nblock + es, nextSym) && Matches(tt, nblock, bytes, map256) &&
      ByteTable(y)
    requires |tt'| == |tt| && nblock + es <= |tt| && nblock + es <= |bytes| &&
      (forall i :: nblock <= i < nblock + es ==> bytes[i] == y[0])
    requires (forall i :: 0 <= i < nblock ==> tt'[i] == tt[i]) && forall i ::
      nblock <= i < nblock + es ==> tt'[i] == map256[y[0]]
    ensures Going(c, alphaSize, k, bytes, map256, p', y, tt', nblock + es, nextSym, stream)
  {
    MatchRun(tt, tt', nblock, bytes, map256, es, y[0]);
  }

  lemma GoingParts(c: Coded, alphaSize: nat, k: seq<int>, bytes: seq<int>, map256: seq<int>, p: nat, y: seq<int>,
      tt: seq<int>, nblock: int,
                   nextSym: int, stream: seq<int>)
    requires Going(c, alphaSize, k, bytes, map256, p, y, tt, nblock, nextSym, stream)
    ensures Sound(c, alphaSize) && Ends(c.syms, alphaSize - 1) && p <= |c.syms| && stream == Data(c, alphaSize, p, k)
    ensures Track(c.syms, alphaSize - 1, bytes, p, y, nblock, nextSym) && Matches(tt, nblock, bytes, map256)
    ensures 1 <= p && 0 <= nblock <= |bytes|
  {
  }

  /** One byte taken from the list. */
  lemma GoingLiteral(c: Coded, alphaSize: nat, k: seq<int>, bytes: seq<int>, map256: seq<int>, p: nat, y: seq<int>,
      tt: seq<int>, nblock: int,
                     s: int, stream: seq<int>)
    requires Going(c, alphaSize, k, bytes, map256, p, y, tt, nblock, s, stream) && !IsRun(s) && s != alphaSize - 1
    requires ByteTable(y) && nblock < |tt| && 1 <= s <= 256
    ensures Sound(c, alphaSize) && p < |c.syms| && stream == Data(c, alphaSize, p, k) && |map256| == 256
    ensures Going(c, alphaSize, k, bytes, map256, p + 1, ToFront(y, s - 1), tt[nblock := map256[y[s - 1]]], nblock + 1,
      c.syms[p],
                  Data(c, alphaSize, p + 1, k))
  {
    TrackLiteral(c.syms, alphaSize - 1, bytes, p, y, nblock, s);
    hide Data;
    hide Track;
    MatchRun(tt, tt[nblock := map256[y[s - 1]]], nblock, bytes, map256, 1, y[s - 1]);
  }

  lemma RoomLeft(c: Coded, alphaSize: nat, k: seq<int>, bytes: seq<int>, map256: seq<int>, p: nat, y: seq<int>,
      tt: seq<int>, nblock: int,
                 s: int, stream: seq<int>)
    requires Going(c, alphaSize, k, bytes, map256, p, y, tt, nblock, s, stream) && !IsRun(s) && s != alphaSize - 1
    ensures nblock < |bytes|
  {
    TrackLiteral(c.syms, alphaSize - 1, bytes, p, y, nblock, s);
  }

  lemma StoredBounds(tt: seq<int>, nblock: int, unz: seq<int>)
    requires Stored(tt, nblock, unz)
    ensures 0 <= nblock <= |tt| && |unz| == 256
  {
  }

  lemma MapAt(map256: seq<int>, y: seq<int>, j: nat)
    requires ByteTable(map256) && ByteTable(y) && j < 256
    ensures 0 <= y[j] < 256 && |map256| == 256 && 0 <= map256[y[j]] < 256
  {
  }

  /** A run of the front byte. */
  method RunTurn(r: BitReader, tables: seq<DecodeTable>, selector: seq<int>, g: Group, nextSym: int,
      seqToUnseq: seq<int>,
                 tt: array<int>, unzftab: array<int>, mtfa: array<int>, mtfbase: array<int>, nblock: nat,
                 nblockMAX: nat,
                 ghost lens: seq<seq<int>>, ghost alphaSize: nat, ghost p: nat, ghost y: seq<int>,
                 ghost c: Coded, ghost k: seq<int>, ghost bytes: seq<int>)
    returns (st: Status, g': Group, nextSym': int, nblock': nat, ghost p': nat)
    requires r.Valid() && TablesReady(tables, lens, selector, alphaSize) && Place(g, selector, p) &&
      Sound(c, alphaSize) && IsRun(nextSym)
    requires tt != unzftab && tt != mtfa && tt != mtfbase && unzftab != mtfa && unzftab != mtfbase && mtfa != mtfbase
    requires Blocked(mtfa[..], mtfbase[..], y) && ByteTable(y) && ByteTable(seqToUnseq) &&
      nblock <= nblockMAX <= tt.Length && nblockMAX <= 900_000
    requires Stored(tt[..], nblock, unzftab[..])
    modifies r, tt, unzftab
    ensures r.Valid()
    ensures st.Short? ==> r.Spent()
    ensures |r.Remaining()| <= |old(r.Remaining())|
    ensures st.Fine? ==>
      Place(g', selector, p') && 0 <= nextSym' < alphaSize && nblock' <= nblockMAX &&
      Stored(tt[..], nblock', unzftab[..]) &&
                         |r.Remaining()| < |old(r.Remaining())|
    ensures (lens == c.tables && selector == c.selectors && |bytes| <= nblockMAX &&
             old(Going(c, alphaSize, k, bytes, seqToUnseq, p, y, tt[..], nblock, nextSym, r.Remaining()))) ==>
      (st.Fine? || (st.Short? && r.more != [])) &&
      (st.Fine? ==> Going(c, alphaSize, k, bytes, seqToUnseq, p', y, tt[..], nblock', nextSym', r.Remaining()))
  {
    hide *;
    ghost var t, u := tt[..], unzftab[..];
    ghost var good := lens == c.tables && selector == c.selectors && |bytes| <= nblockMAX &&
      Going(c, alphaSize, k, bytes, seqToUnseq, p, y, t, nblock, nextSym, r.Remaining());
    if good { GoingParts(c, alphaSize, k, bytes, seqToUnseq, p, y, t, nblock, nextSym, r.Remaining()); }
    FrontOf(mtfa[..], mtfbase[..], y);
    MapAt(seqToUnseq, y, 0);
    StoredBounds(t, nblock, u);
    var es;
    nblock' := nblock;
    st, es, g', nextSym', p' :=
      ReadRun(r, tables, selector, g, nextSym, lens, alphaSize, p, c, k, alphaSize - 1, bytes, y, nblock);
    if !st.Fine? { return; }
    assert tt[..] == t && unzftab[..] == u;
    var uc := seqToUnseq[mtfa[mtfbase[0]]];
    unzftab[uc] := unzftab[uc] + es;
    st, nblock' := StoreCopies(tt, uc, es, nblock, nblockMAX);
    if !st.Fine? { return; }
    StoreRun(t, tt[..], nblock, u, es, uc);
    assert unzftab[..] == u[uc := u[uc] + es];
    if good { GoingRun(c, alphaSize, k, bytes, seqToUnseq, p, y, t, nblock, p', es, tt[..], nextSym', r.Remaining()); }
  }

  /** A byte from elsewhere in the list. */
  method LiteralTurn(r: BitReader, tables: seq<DecodeTable>, selector: seq<int>, g: Group, nextSym: int,
      seqToUnseq: seq<int>,
                     tt: array<int>, unzftab: array<int>, mtfa: array<int>, mtfbase: array<int>, nblock: nat,
                     nblockMAX: nat,
                     ghost lens: seq<seq<int>>, ghost alphaSize: nat, ghost p: nat, ghost y: seq<int>,
                     ghost c: Coded, ghost k: seq<int>, ghost bytes: seq<int>)
    returns (st: Status, g': Group, nextSym': int, nblock': nat)
    requires r.Valid() && TablesReady(tables, lens, selector, alphaSize) && Place(g, selector, p) && Sound(c, alphaSize)
    requires !IsRun(nextSym) && 2 <= nextSym < alphaSize - 1 <= 257
    requires tt != unzftab && tt != mtfa && tt != mtfbase && unzftab != mtfa && unzftab != mtfbase && mtfa != mtfbase
    requires Blocked(mtfa[..], mtfbase[..], y) && ByteTable(y) && ByteTable(seqToUnseq) &&
      nblock <= nblockMAX <= tt.Length && nblockMAX <= 900_000
    requires Stored(tt[..], nblock, unzftab[..]) && mtfbase.Length == 16 && mtfbase[0] > 0
    modifies r, tt, unzftab, mtfa, mtfbase
    ensures r.Valid()
    ensures st.Short? ==> r.Spent()
    ensures |r.Remaining()| <= |old(r.Remaining())|
    ensures st.Fine? ==>
      Place(g', selector, p + 1) && 0 <= nextSym' < alphaSize && nblock' <= nblockMAX &&
      Stored(tt[..], nblock', unzftab[..]) &&
                         |r.Remaining()| < |old(r.Remaining())| && |y| == 256 &&
                         Blocked(mtfa[..], mtfbase[..], ToFront(y, nextSym - 1)) && mtfbase[0] > 0
    ensures (lens == c.tables && selector == c.selectors && |bytes| <= nblockMAX &&
             old(Going(c, alphaSize, k, bytes, seqToUnseq, p, y, tt[..], nblock, nextSym, r.Remaining()))) ==>
      (st.Fine? || (st.Short? && r.more != [])) &&
      (st.Fine? ==>
        |y| == 256 &&
        Going(c, alphaSize, k, bytes, seqToUnseq, p + 1, ToFront(y, nextSym - 1), tt[..], nblock', nextSym',
        r.Remaining()))
  {
    hide *;
    ghost var t, u := tt[..], unzftab[..];
    ghost var good := lens == c.tables && selector == c.selectors && |bytes| <= nblockMAX &&
      Going(c, alphaSize, k, bytes, seqToUnseq, p, y, t, nblock, nextSym, r.Remaining());
    if good { RoomLeft(c, alphaSize, k, bytes, seqToUnseq, p, y, t, nblock, nextSym, r.Remaining()); }
    g', nextSym', nblock' := g, nextSym, nblock;
    if nblock >= nblockMAX { st := Corrupt; return; }
    StoredBounds(t, nblock, u);
    MapAt(seqToUnseq, y, nextSym - 1);
    if good { GoingLiteral(c, alphaSize, k, bytes, seqToUnseq, p, y, t, nblock, nextSym, r.Remaining()); }
    var uc := DecodeStep(mtfa, mtfbase, nextSym - 1, y);
    assert tt[..] == t && unzftab[..] == u;
    unzftab[seqToUnseq[uc]] := unzftab[seqToUnseq[uc]] + 1;
    tt[nblock] := seqToUnseq[uc];
    StoreRun(t, tt[..], nblock, u, 1, seqToUnseq[uc]);
    ghost var t', u' := tt[..], unzftab[..];
    assert u' == u[seqToUnseq[uc] := u[seqToUnseq[uc]] + 1];
    ghost var a, base := mtfa[..], mtfbase[..];
    nblock' := nblock + 1;
    var res;
    res, g' := GetMtfVal(r, tables, selector, g, lens, alphaSize, p, c, k);
    assert tt[..] == t' && unzftab[..] == u' && mtfa[..] == a && mtfbase[..] == base;
    if !res.Symbol? {
      st := if res.DataError? then Corrupt else Short;
      return;
    }
    nextSym' := res.s;
    st := Fine;
  }

  lemma GoingStart(c: Coded, alphaSize: nat, k: seq<int>, bytes: seq<int>, map256: seq<int>, tt: seq<int>)
    requires alphaSize - 1 > RUNB && |map256| == 256
    requires Sound(c, alphaSize) && Ends(c.syms, alphaSize - 1) &&
      Undo(Identity(), c.syms, alphaSize - 1) == Some(bytes)
    ensures |c.syms| > 0 &&
      Going(c, alphaSize, k, bytes, map256, 1, Identity(), tt, 0, c.syms[0], Data(c, alphaSize, 1, k))
  {
    hide Data;
    hide Undo;
    TrackStart(c.syms, alphaSize - 1, bytes, Identity());
  }

  lemma GoingEnd(c: Coded, alphaSize: nat, k: seq<int>, bytes: seq<int>, map256: seq<int>, p: nat, y: seq<int>,
      tt: seq<int>, nblock: int,
                 stream: seq<int>)
    requires Going(c, alphaSize, k, bytes, map256, p, y, tt, nblock, alphaSize - 1, stream)
    ensures nblock == |bytes| && stream == k && Matches(tt, nblock, bytes, map256)
  {
    TrackEnd(c.syms, alphaSize - 1, bytes, p, y, nblock);
    assert p == |c.syms|;
  }

  /** The state of the main loop on any input. */
  ghost predicate Steady(selector: seq<int>, g: Group, p: nat, nextSym: int, alphaSize: nat, a: seq<int>,
      base: seq<int>, y: seq<int>,
                         tt: seq<int>, nblock: int, unz: seq<int>) {
    Place(g, selector, p) && 0 <= nextSym < alphaSize && Blocked(a, base, y) && |base| == 16 && base[0] > 0 &&
    ByteTable(y) && Stored(tt, nblock, unz)
  }

  lemma SteadyParts(selector: seq<int>, g: Group, p: nat, nextSym: int, alphaSize: nat, a: seq<int>, base: seq<int>,
      y: seq<int>,
                    tt: seq<int>, nblock: int, unz: seq<int>)
    requires Steady(selector, g, p, nextSym, alphaSize, a, base, y, tt, nblock, unz)
    ensures Place(g, selector, p) && 0 <= nextSym < alphaSize && Blocked(a, base, y) && |base| == 16 && base[0] > 0 &&
      ByteTable(y) && Stored(tt, nblock, unz)
    ensures IsRun(nextSym) <==> nextSym < 2
  {
  }

  lemma SteadyIntro(selector: seq<int>, g: Group, p: nat, nextSym: int, alphaSize: nat, a: seq<int>, base: seq<int>,
      y: seq<int>,
                    tt: seq<int>, nblock: int, unz: seq<int>)
    requires Place(g, selector, p) && 0 <= nextSym < alphaSize && Blocked(a, base, y) && |base| == 16 && base[0] > 0 &&
      ByteTable(y) && Stored(tt, nblock, unz)
    ensures Steady(selector, g, p, nextSym, alphaSize, a, base, y, tt, nblock, unz)
  {
  }

  /** One turn of the main loop. */
  method Turn(r: BitReader, tables: seq<DecodeTable>, selector: seq<int>, g: Group, nextSym: int, seqToUnseq: seq<int>,
              tt: array<int>, unzftab: array<int>, mtfa: array<int>, mtfbase: array<int>, nblock: nat, nblockMAX: nat,
              ghost lens: seq<seq<int>>, ghost alphaSize: nat, ghost p: nat, ghost y: seq<int>,
              ghost c: Coded, ghost k: seq<int>, ghost bytes: seq<int>)
    returns (st: Status, g': Group, nextSym': int, nblock': nat, ghost p': nat, ghost y': seq<int>)
    requires r.Valid() && TablesReady(tables, lens, selector, alphaSize) && Sound(c, alphaSize) &&
      nextSym != alphaSize - 1 && alphaSize <= 258
    requires tt != unzftab && tt != mtfa && tt != mtfbase && unzftab != mtfa && unzftab != mtfbase && mtfa != mtfbase
    requires Steady(selector, g, p, nextSym, alphaSize, mtfa[..], mtfbase[..], y, tt[..], nblock, unzftab[..])
    requires ByteTable(seqToUnseq) && nblock <= nblockMAX <= tt.Length && nblockMAX <= 900_000
    modifies r, tt, unzftab, mtfa, mtfbase
    ensures r.Valid()
    ensures st.Short? ==> r.Spent()
    ensures |r.Remaining()| <= |old(r.Remaining())|
    ensures st.Fine? ==>
      Steady(selector, g', p', nextSym', alphaSize, mtfa[..], mtfbase[..], y', tt[..], nblock', unzftab[..]) &&
                         nblock' <= nblockMAX && |r.Remaining()| < |old(r.Remaining())|
    ensures (lens == c.tables && selector == c.selectors && |bytes| <= nblockMAX &&
             old(Going(c, alphaSize, k, bytes, seqToUnseq, p, y, tt[..], nblock, nextSym, r.Remaining()))) ==>
      (st.Fine? || (st.Short? && r.more != [])) &&
      (st.Fine? ==> Going(c, alphaSize, k, bytes, seqToUnseq, p', y', tt[..], nblock', nextSym', r.Remaining()))
  {
    hide *;
    SteadyParts(selector, g, p, nextSym, alphaSize, mtfa[..], mtfbase[..], y, tt[..], nblock, unzftab[..]);
    ghost var a, base := mtfa[..], mtfbase[..];
    if IsRunSym(nextSym) {
      st, g', nextSym', nblock', p' :=
      RunTurn(r, tables, selector, g, nextSym, seqToUnseq, tt, unzftab, mtfa, mtfbase, nblock, nblockMAX,
                                               lens, alphaSize, p, y, c, k, bytes);
      assert mtfa[..] == a && mtfbase[..] == base;
      y' := y;
      if st.Fine? {
        SteadyIntro(selector, g', p', nextSym', alphaSize, mtfa[..], mtfbase[..], y', tt[..], nblock', unzftab[..]);
      }
    } else {
      st, g', nextSym', nblock' :=
      LiteralTurn(r, tables, selector, g, nextSym, seqToUnseq, tt, unzftab, mtfa, mtfbase, nblock, nblockMAX,
                                               lens, alphaSize, p, y, c, k, bytes);
      p' := p + 1;
      ToFrontBytes(y, nextSym - 1);
      ByteList(y);
      y' := ToFront(y, nextSym - 1);
      if st.Fine? {
        SteadyIntro(selector, g', p', nextSym', alphaSize, mtfa[..], mtfbase[..], y', tt[..], nblock', unzftab[..]);
      }
    }
  }

  lemma ByteList(y: seq<int>)
    requires ByteTable(y)
    ensures |y| == 256
  {
  }

  /** The MTF values of a block. On success tt holds the last column, no longer than nblockMAX, and
      unzftab its byte counts. The symbols of a coded block whose meaning is `bytes` give the bytes
      those stand for. */
  method ReadSymbols(r: BitReader, tables: seq<DecodeTable>, selector: seq<int>, nInUse: nat, seqToUnseq: seq<int>,
      tt: array<int>, nblockMAX: nat,
                     ghost lens: seq<seq<int>>, ghost c: Coded, ghost k: seq<int>, ghost bytes: seq<int>)
    returns (st: Status, nblock: nat, unzftab: array<int>)
    requires r.Valid() && 1 <= nInUse <= 256 && TablesReady(tables, lens, selector, nInUse + 2) && Sound(c, nInUse + 2)
    requires ByteTable(seqToUnseq) && nblockMAX <= tt.Length && nblockMAX <= 900_000
    modifies r, tt
    ensures r.Valid() && fresh(unzftab) && unzftab.Length == 256 &&
      (st.Fine? ==> nblock <= nblockMAX && Stored(tt[..], nblock, unzftab[..]))
    ensures st.Short? ==> r.Spent()
    ensures |r.Remaining()| <= |old(r.Remaining())|
    ensures (lens == c.tables && selector == c.selectors && Ends(c.syms, nInUse + 1) && |bytes| <= nblockMAX &&
             Undo(Identity(), c.syms, nInUse + 1) == Some(bytes) && old(r.Remaining()) == Data(c, nInUse + 2, 0, k)) ==>
      (st.Fine? || (st.Short? && r.more != [])) &&
      (st.Fine? ==> nblock == |bytes| && Matches(tt[..], nblock, bytes, seqToUnseq) && r.Remaining() == k)
  {
    hide *;
    var EOB := nInUse + 1;
    ghost var alphaSize := nInUse + 2;
    RunConstants();
    ghost var good := lens == c.tables && selector == c.selectors && Ends(c.syms, EOB) && |bytes| <= nblockMAX &&
      Undo(Identity(), c.syms, EOB) == Some(bytes) && r.Remaining() == Data(c, alphaSize, 0, k);
    unzftab := new int[256](_ => 0);
    var mtfa, mtfbase := new int[4096], new int[16];
    InitBlocked(mtfa, mtfbase);
    ghost var a, base := mtfa[..], mtfbase[..];
    nblock := 0;
    RunConstants();
    ByteList(seqToUnseq);
    StoredStart(tt[..], unzftab[..], bytes, seqToUnseq);
    IdentityBytes();
    PlaceStart(selector);
    if good { GoingStart(c, alphaSize, k, bytes, seqToUnseq, tt[..]); }
    var res, g := GetMtfVal(r, tables, selector, Group(-1, 0, 0), lens, alphaSize, 0, c, k);
    assert mtfa[..] == a && mtfbase[..] == base;
    if !res.Symbol? {
      st := if res.DataError? then Corrupt else Short;
      return;
    }
    var nextSym := res.s;
    ghost var p: nat, y := 1, Identity();
    SteadyIntro(selector, g, p, nextSym, alphaSize, mtfa[..], mtfbase[..], y, tt[..], nblock, unzftab[..]);
    while nextSym != EOB
      invariant r.Valid() && |r.Remaining()| <= |old(r.Remaining())|
      invariant r.Valid() && nblock <= nblockMAX
      invariant Steady(selector, g, p, nextSym, alphaSize, mtfa[..], mtfbase[..], y, tt[..], nblock, unzftab[..])
      invariant good ==> Going(c, alphaSize, k, bytes, seqToUnseq, p, y, tt[..], nblock, nextSym, r.Remaining())
      decreases |r.Remaining()|
    {
      st, g, nextSym, nblock, p, y :=
      Turn(r, tables, selector, g, nextSym, seqToUnseq, tt, unzftab, mtfa, mtfbase, nblock, nblockMAX,
                                           lens, alphaSize, p, y, c, k, bytes);
      if !st.Fine? { return; }
    }
    SteadyParts(selector, g, p, nextSym, alphaSize, mtfa[..], mtfbase[..], y, tt[..], nblock, unzftab[..]);
    if good { GoingEnd(c, alphaSize, k, bytes, seqToUnseq, p, y, tt[..], nblock, r.Remaining()); }
    st := Fine;
  }
}
