/** generateMTFValues: the symbols are written as 16-bit halves over the 32-bit sort pointers they
    are computed from. */
module MtfEncoder {
  import opened Rotations
  import opened Counting
  import opened Bwt
  import opened MoveToFront
  import opened MtfSymbols

  /* ---------- numbering the bytes in use ---------- */

  /** The bytes below i that are in use, in order. */
  ghost function Used(inUse: seq<bool>, i: nat): (u: seq<int>)
    requires i <= |inUse|
    ensures |u| <= i && forall k :: 0 <= k < |u| ==> 0 <= u[k] < i && inUse[u[k]]
  {
    if i == 0 then [] else Used(inUse, i - 1) + (if inUse[i - 1] then [i - 1] else [])
  }

  /** Each byte in use below i has its number. */
  ghost predicate Numbered(inUse: seq<bool>, unseq: seq<int>, i: nat) {
    |inUse| == 256 == |unseq| && i <= 256 &&
    forall c :: 0 <= c < i && inUse[c] ==> 0 <= unseq[c] < |Used(inUse, i)| && Used(inUse, i)[unseq[c]] == c
  }

  /** makeMaps_e */
  method MakeMaps(inUse: array<bool>) returns (unseqToSeq: array<int>, nInUse: int)
    requires inUse.Length == 256
    ensures fresh(unseqToSeq) && Numbered(inUse[..], unseqToSeq[..], 256) && nInUse == |Used(inUse[..], 256)|
  {
    unseqToSeq := new int[256];
    nInUse := 0;
    var i := 0;
    while i < 256
      invariant 0 <= i <= 256 && Numbered(inUse[..], unseqToSeq[..], i) && nInUse == |Used(inUse[..], i)|
    {
      NumberedStep(inUse[..], unseqToSeq[..], i);
      if inUse[i] {
        unseqToSeq[i] := nInUse;
        nInUse := nInUse + 1;
      }
      i := i + 1;
    }
  }

  lemma NumberedStep(inUse: seq<bool>, unseq: seq<int>, i: nat)
    requires Numbered(inUse, unseq, i) && i < 256
    ensures inUse[i] ==> Numbered(inUse, unseq[i := |Used(inUse, i)|], i + 1)
    ensures !inUse[i] ==> Numbered(inUse, unseq, i + 1)
  {
  }

  /** The last column with each byte replaced by its number. */
  ghost predicate Numbers(c: seq<int>, l: seq<int>, u: seq<int>) {
    |c| == |l| && forall i :: 0 <= i < |l| ==> 0 <= c[i] < |u| && u[c[i]] == l[i]
  }

  /** The list both sides start from, cut to the bytes in use. */
  ghost function Iota(n: nat): (y: seq<int>)
    ensures |y| == n && forall k :: 0 <= k < n ==> y[k] == k
  {
    seq(n, k => k)
  }

  /* ---------- the symbols over the pointers ---------- */

  /** The 16-bit half of a 32-bit word that holds symbol w. */
  function Half(word: int, w: int): (v: int)
    requires 0 <= word < 0x1_0000_0000 && 0 <= w
  {
    if w % 2 == 0 then word % 0x1_0000 else word / 0x1_0000
  }

  function SetHalf(word: int, w: int, v: int): (word': int)
    requires 0 <= word < 0x1_0000_0000 && 0 <= w && 0 <= v < 0x1_0000
    ensures 0 <= word' < 0x1_0000_0000 && Half(word', w) == v && Half(word', w + 1) == Half(word, w + 1)
  {
    if w % 2 == 0 then word - word % 0x1_0000 + v else word % 0x1_0000 + 0x1_0000 * v
  }

  ghost predicate Words(a: seq<int>) {
    forall k :: 0 <= k < |a| ==> 0 <= a[k] < 0x1_0000_0000
  }

  /** The words of a hold the symbols s from the start, and their counts are in freq. */
  ghost predicate Written(a: seq<int>, s: seq<int>, freq: seq<int>) {
    Words(a) && |s| <= 2 * |a| && (forall k :: 0 <= k < |s| ==> Half(a[k / 2], k) == s[k]) &&
    forall v :: 0 <= v < |freq| ==> freq[v] == Count(s, |s|, v)
  }

  lemma {:induction false} CountAppend(s: seq<int>, x: int, i: nat, v: int)
    requires i <= |s|
    ensures Count(s + [x], i, v) == Count(s, i, v)
    decreases i
  {
    if i > 0 { CountAppend(s, x, i - 1, v); }
  }

  lemma WriteStep(a: seq<int>, s: seq<int>, freq: seq<int>, v: int)
    requires Written(a, s, freq) && |s| < 2 * |a| && 0 <= v < |freq| && v < 0x1_0000
    ensures 0 <= a[|s| / 2] < 0x1_0000_0000
    ensures Written(a[|s| / 2 := SetHalf(a[|s| / 2], |s|, v)], s + [v], freq[v := freq[v] + 1])
  {
    var w := |s|;
    var a', f' := a[w / 2 := SetHalf(a[w / 2], w, v)], freq[v := freq[v] + 1];
    forall k | 0 <= k < |s + [v]| ensures Half(a'[k / 2], k) == (s + [v])[k] {
      if k / 2 == w / 2 && k != w {
        assert k % 2 == 0 && w == k + 1;
      }
    }
    forall x | 0 <= x < |f'| ensures f'[x] == Count(s + [v], |s + [v]|, x) {
      CountAppend(s, v, |s|, x);
    }
  }

  /** The pointers from index i on are still there. */
  ghost predicate PtrsFrom(a: seq<int>, p: seq<int>, i: int) {
    |p| <= |a| && forall k :: 0 <= k < |p| && i <= k ==> a[k] == p[k]
  }

  /** Append one symbol. */
  method PutSymbol(arr1: array<int>, mtfFreq: array<int>, wr: int, v: int, ghost s: seq<int>, ghost p: seq<int>,
      ghost i: int)
    returns (wr': int)
    requires arr1 != mtfFreq && Written(arr1[..], s, mtfFreq[..]) && wr == |s| < 2 * arr1.Length
    requires 0 <= v < mtfFreq.Length && v < 0x1_0000 && PtrsFrom(arr1[..], p, i) && wr / 2 < i
    modifies arr1, mtfFreq
    ensures wr' == wr + 1 && Written(arr1[..], s + [v], mtfFreq[..]) && PtrsFrom(arr1[..], p, i)
  {
    hide Written;
    WriteStep(arr1[..], s, mtfFreq[..], v);
    arr1[wr / 2] := SetHalf(arr1[wr / 2], wr, v);
    mtfFreq[v] := mtfFreq[v] + 1;
    wr' := wr + 1;
  }

  /** Write out a pending run. It takes no more symbols than the run is long. */
  method FlushRun(arr1: array<int>, mtfFreq: array<int>, wr: int, zPend0: int, ghost s: seq<int>, ghost p: seq<int>,
      ghost i: int)
    returns (wr': int)
    requires arr1 != mtfFreq && Written(arr1[..], s, mtfFreq[..]) && wr == |s| && 0 <= zPend0
    requires wr + zPend0 <= i <= 2 * arr1.Length && mtfFreq.Length >= 2 && PtrsFrom(arr1[..], p, i)
    modifies arr1, mtfFreq
    ensures wr' == |s + RunCode(zPend0)| <= wr + zPend0 && Written(arr1[..], s + RunCode(zPend0), mtfFreq[..])
    ensures PtrsFrom(arr1[..], p, i)
  {
    hide *;
    wr' := wr;
    ghost var w := s;
    RunCodeEnds(zPend0);
    if zPend0 > 0 {
      var zPend := zPend0 - 1;
      while true
        invariant 0 <= zPend && w + RunCode(zPend + 1) == s + RunCode(zPend0)
        invariant wr' == |w| && wr' + zPend + 1 <= i
        invariant Written(arr1[..], w, mtfFreq[..]) && PtrsFrom(arr1[..], p, i)
        decreases zPend
      {
        RunCodeStep(w, zPend);
        if zPend % 2 == 1 {
          wr' := PutSymbol(arr1, mtfFreq, wr', RUNB, w, p, i);
        } else {
          wr' := PutSymbol(arr1, mtfFreq, wr', RUNA, w, p, i);
        }
        w := w + [zPend % 2];
        if zPend < 2 {
          break;
        }
        zPend := (zPend - 2) / 2;
      }
    }
    assert w == s + RunCode(zPend0);
  }

  lemma RunCodeEnds(n: nat)
    ensures n == 0 ==> RunCode(n) == []
    ensures |RunCode(n)| <= n && RUNA == 0 && RUNB == 1
  {
  }

  lemma RunCodeStep(w: seq<int>, z: nat)
    ensures z < 2 ==> w + RunCode(z + 1) == w + [z % 2]
    ensures z >= 2 ==> w + RunCode(z + 1) == w + [z % 2] + RunCode((z - 2) / 2 + 1)
  {
  }

  /** What is in hand before entry i: the symbols s written so far, a run of z pending, the list y;
      together with the rest they make up all the symbols. */
  ghost predicate Encoding(c: seq<int>, y0: seq<int>, s: seq<int>, y: seq<int>, z: int, i: int, eob: int) {
    0 <= z && 0 <= i <= |c| && |y| == |y0| && |s| + z <= i &&
    (forall k :: 0 <= k < |c| ==> c[k] in y0 && c[k] in y) &&
    s + Symbols(y, c[i..], z, eob) == Symbols(y0, c, 0, eob)
  }

  lemma EncodeStart(c: seq<int>, y0: seq<int>, eob: int)
    requires forall k :: 0 <= k < |c| ==> c[k] in y0
    ensures Encoding(c, y0, [], y0, 0, 0, eob)
  {
    assert c[0..] == c;
    assert [] + Symbols(y0, c, 0, eob) == Symbols(y0, c, 0, eob);
  }

  lemma EncodeFront(c: seq<int>, y0: seq<int>, s: seq<int>, y: seq<int>, z: int, i: int, eob: int)
    requires Encoding(c, y0, s, y, z, i, eob) && i < |c| && |y| > 0 && y[0] == c[i]
    ensures Encoding(c, y0, s, y, z + 1, i + 1, eob)
  {
    assert c[i..][1..] == c[i + 1..];
  }

  lemma EncodeLiteral(c: seq<int>, y0: seq<int>, s: seq<int>, y: seq<int>, z: int, i: int, eob: int)
    requires Encoding(c, y0, s, y, z, i, eob) && i < |c| && |y| > 0 && y[0] != c[i]
    ensures 0 < IndexOf(y, c[i]) < |y|
    ensures Encoding(c, y0, s + RunCode(z) + [IndexOf(y, c[i]) + 1], ToFront(y, IndexOf(y, c[i])), 0, i + 1, eob)
  {
    hide Symbols;
    hide RunCode;
    hide ToFront;
    hide IndexOf;
    SymbolsLiteral(y, c, z, i, eob);
    var j := IndexOf(y, c[i]);
    ToFrontMembers(y, j);
    Regroup(s, RunCode(z), j + 1, Symbols(ToFront(y, j), c[i + 1..], 0, eob));
  }

  lemma Regroup(s: seq<int>, r: seq<int>, x: int, rest: seq<int>)
    ensures s + (r + [x] + rest) == (s + r + [x]) + rest
  {
  }

  lemma SymbolsLiteral(y: seq<int>, c: seq<int>, z: nat, i: nat, eob: int)
    requires i < |c| && (forall k :: 0 <= k < |c| ==> c[k] in y) && y[0] != c[i]
    ensures 0 < IndexOf(y, c[i]) < |y|
    ensures forall k {:trigger c[i + 1..][k]} :: 0 <= k < |c| - i - 1 ==> c[i + 1..][k] in ToFront(y, IndexOf(y, c[i]))
    ensures Symbols(y, c[i..], z, eob) ==
            RunCode(z) + [IndexOf(y, c[i]) + 1] + Symbols(ToFront(y, IndexOf(y, c[i])), c[i + 1..], 0, eob)
  {
    assert c[i..][1..] == c[i + 1..];
    ToFrontMembers(y, IndexOf(y, c[i]));
  }

  lemma EncodeEnd(c: seq<int>, y0: seq<int>, s: seq<int>, y: seq<int>, z: int, eob: int)
    requires Encoding(c, y0, s, y, z, |c|, eob)
    ensures s + RunCode(z) + [eob] == Symbols(y0, c, 0, eob)
  {
    assert c[|c|..] == [];
    assert s + (RunCode(z) + [eob]) == s + RunCode(z) + [eob];
  }

  lemma EncodingFacts(c: seq<int>, y0: seq<int>, s: seq<int>, y: seq<int>, z: int, i: int, eob: int)
    requires Encoding(c, y0, s, y, z, i, eob)
    ensures 0 <= z && |s| + z <= i && |y| == |y0| && (i < |c| ==> c[i] in y && |y| > 0)
  {
  }

  lemma PrefixToFront(a: seq<int>, n: nat, j: nat)
    requires j < n <= |a|
    ensures ToFront(a, j)[..n] == ToFront(a[..n], j)
  {
  }

  /** The MTF number of entry i: the preceding byte, by its number among those in use. */
  ghost function NumbersOf(b: seq<int>, p: seq<int>, unseq: seq<int>): (c: seq<int>)
    requires IsPermutation(p, |b|) && Keys(b, 256) && |unseq| == 256
    ensures |c| == |b| && forall i :: 0 <= i < |b| ==> c[i] == unseq[LastColumn(b, p)[i]]
  {
    seq(|b|, i requires 0 <= i < |b| => unseq[LastColumn(b, p)[i]])
  }

  lemma NumbersRight(b: seq<int>, p: seq<int>, inUse: seq<bool>, unseq: seq<int>)
    requires IsPermutation(p, |b|) && Keys(b, 256) && Numbered(inUse, unseq, 256)
    requires forall k :: 0 <= k < |b| ==> inUse[b[k]]
    ensures Numbers(NumbersOf(b, p, unseq), LastColumn(b, p), Used(inUse, 256))
    ensures forall k :: 0 <= k < |b| ==> NumbersOf(b, p, unseq)[k] in Iota(|Used(inUse, 256)|)
  {
    var n := |Used(inUse, 256)|;
    forall k | 0 <= k < |b| ensures NumbersOf(b, p, unseq)[k] in Iota(n) {
      var x := NumbersOf(b, p, unseq)[k];
      assert Iota(n)[x] == x;
    }
  }

  method InitList(nInUse: int) returns (yy: array<int>)
    requires 0 <= nInUse <= 256
    ensures fresh(yy) && yy.Length == 256 && yy[..nInUse] == Iota(nInUse)
  {
    yy := new int[256];
    var i := 0;
    while i < nInUse
      invariant 0 <= i <= nInUse && forall k :: 0 <= k < i ==> yy[k] == k
    {
      yy[i] := i;
      i := i + 1;
    }
  }

  /** generateMTFValues. The words of arr1 hold the sort pointers on entry and the symbols on
      return; a pointer is overwritten only after it has been used. */
  method GenerateMtfValues(arr1: array<int>, block: array<int>, nblock: int, inUse: array<bool>, mtfFreq: array<int>,
                           ghost b: seq<int>, ghost p: seq<int>)
    returns (nMTF: int, nInUse: int, ghost c: seq<int>)
    requires arr1 != mtfFreq && block != arr1 && block != mtfFreq && mtfFreq.Length == 258
    requires 0 < nblock == |b| <= block.Length && nblock <= arr1.Length && nblock < 0x8000_0000
    requires block[..nblock] == b && Keys(b, 256) && arr1[..nblock] == p && IsPermutation(p, nblock)
    requires inUse.Length == 256 && (forall k :: 0 <= k < nblock ==> inUse[..][b[k]]) && Words(arr1[..])
    modifies arr1, mtfFreq
    ensures nInUse == |Used(inUse[..], 256)| && 1 <= nInUse <= 256 && nMTF <= nblock + 1
    ensures Numbers(c, LastColumn(b, p), Used(inUse[..], 256)) && (forall i :: 0 <= i < |c| ==> c[i] in Iota(nInUse))
    ensures nMTF == |Symbols(Iota(nInUse), c, 0, nInUse + 1)|
    ensures Written(arr1[..], Symbols(Iota(nInUse), c, 0, nInUse + 1), mtfFreq[..])
  {
    var unseqToSeq;
    unseqToSeq, nInUse := MakeMaps(inUse);
    NumbersRight(b, p, inUse[..], unseqToSeq[..]);
    c := NumbersOf(b, p, unseqToSeq[..]);
    assert c[0] in Iota(nInUse);
    assert unseqToSeq != block && unseqToSeq != arr1 && unseqToSeq != mtfFreq;
    ZeroFreq(mtfFreq);
    WrittenStart(arr1[..], mtfFreq[..]);
    var yy := InitList(nInUse);
    nMTF := EncodeAll(arr1, block, nblock, unseqToSeq, mtfFreq, yy, nInUse, b, p, c);
  }

  method ZeroFreq(mtfFreq: array<int>)
    modifies mtfFreq
    ensures forall v :: 0 <= v < mtfFreq.Length ==> mtfFreq[v] == 0
  {
    var i := 0;
    while i < mtfFreq.Length
      invariant 0 <= i <= mtfFreq.Length && forall v :: 0 <= v < i ==> mtfFreq[v] == 0
    {
      mtfFreq[i] := 0;
      i := i + 1;
    }
  }

  lemma WrittenStart(a: seq<int>, freq: seq<int>)
    requires Words(a) && forall v :: 0 <= v < |freq| ==> freq[v] == 0
    ensures Written(a, [], freq)
  {
  }

  method EncodeAll(arr1: array<int>, block: array<int>, nblock: int, unseqToSeq: array<int>, mtfFreq: array<int>,
                   yy: array<int>, nInUse: int, ghost b: seq<int>, ghost p: seq<int>, ghost c: seq<int>)
    returns (wr: int)
    requires arr1 != mtfFreq && block != arr1 && block != mtfFreq && mtfFreq.Length == 258 && unseqToSeq.Length == 256
    requires yy != arr1 && yy != mtfFreq && yy != block && yy != unseqToSeq && yy.Length == 256
    requires unseqToSeq != arr1 && unseqToSeq != mtfFreq && 1 <= nInUse <= 256
    requires 0 < nblock == |b| <= block.Length && nblock <= arr1.Length && block[..nblock] == b && Keys(b, 256)
    requires arr1[..nblock] == p && IsPermutation(p, nblock) && c == NumbersOf(b, p, unseqToSeq[..])
    requires yy[..nInUse] == Iota(nInUse) && (forall k :: 0 <= k < |c| ==> c[k] in Iota(nInUse))
    requires Written(arr1[..], [], mtfFreq[..])
    modifies arr1, mtfFreq, yy
    ensures wr == |Symbols(Iota(nInUse), c, 0, nInUse + 1)| <= nblock + 1
    ensures Written(arr1[..], Symbols(Iota(nInUse), c, 0, nInUse + 1), mtfFreq[..])
  {
    hide *;
    ghost var y0, eob, u := Iota(nInUse), nInUse + 1, unseqToSeq[..];
    ghost var s := [];
    EncodeStart(c, y0, eob);
    PtrsStart(arr1[..], p);
    var i, zPend := 0, 0;
    wr := 0;
    while i < nblock
      invariant 0 <= i <= nblock && wr == |s| && block[..nblock] == b && unseqToSeq[..] == u
      invariant Encoding(c, y0, s, yy[..nInUse], zPend, i, eob)
      invariant Written(arr1[..], s, mtfFreq[..]) && PtrsFrom(arr1[..], p, i)
    {
      var ll := ReadNumber(arr1, block, nblock, unseqToSeq, i, b, p);
      wr, zPend, s := EncodeOne(arr1, mtfFreq, yy, nInUse, nblock, ll, wr, zPend, i, p, c, y0, s);
      assert block[..nblock] == b && unseqToSeq[..] == u;
      i := i + 1;
    }
    EncodeEnd(c, y0, s, yy[..nInUse], zPend, eob);
    EncodingFacts(c, y0, s, yy[..nInUse], zPend, i, eob);
    wr := FlushRun(arr1, mtfFreq, wr, zPend, s, p, i);
    PtrsLater(arr1[..], p, i);
    wr := PutSymbol(arr1, mtfFreq, wr, nInUse + 1, s + RunCode(zPend), p, i + 1);
  }

  lemma PtrsStart(a: seq<int>, p: seq<int>)
    requires |p| <= |a| && a[..|p|] == p
    ensures PtrsFrom(a, p, 0)
  {
  }

  lemma PtrsLater(a: seq<int>, p: seq<int>, i: int)
    requires PtrsFrom(a, p, i)
    ensures PtrsFrom(a, p, i + 1)
  {
  }

  /** The number of the byte before rotation i. */
  method ReadNumber(arr1: array<int>, block: array<int>, nblock: int, unseqToSeq: array<int>, i: int,
                    ghost b: seq<int>, ghost p: seq<int>) returns (ll: int)
    requires 0 <= i < nblock == |b| <= block.Length && block[..nblock] == b && Keys(b, 256) && unseqToSeq.Length == 256
    requires IsPermutation(p, nblock) && PtrsFrom(arr1[..], p, i)
    ensures ll == NumbersOf(b, p, unseqToSeq[..])[i]
  {
    assert arr1[i] == p[i];
    var j := arr1[i] - 1;
    if j < 0 {
      j := j + nblock;
    }
    assert block[j] == b[j] && j == Prev(nblock, p[i]);
    ll := unseqToSeq[block[j]];
  }

  /** One turn of the loop: a front symbol lengthens the run, any other is written after it. */
  method EncodeOne(arr1: array<int>, mtfFreq: array<int>, yy: array<int>, nInUse: int, ghost nblock: int, ll: int,
      wr0: int,
                   zPend0: int, ghost i: int, ghost p: seq<int>, ghost c: seq<int>, ghost y0: seq<int>,
                   ghost s0: seq<int>)
    returns (wr: int, zPend: int, ghost s: seq<int>)
    requires arr1 != mtfFreq && yy != arr1 && yy != mtfFreq && yy.Length == 256 && mtfFreq.Length == 258
    requires 1 <= nInUse <= 256 && 0 <= i < |c| == nblock <= arr1.Length && ll == c[i] && wr0 == |s0|
    requires |y0| == nInUse && Encoding(c, y0, s0, yy[..nInUse], zPend0, i, nInUse + 1)
    requires Written(arr1[..], s0, mtfFreq[..]) && PtrsFrom(arr1[..], p, i)
    modifies arr1, mtfFreq, yy
    ensures Encoding(c, y0, s, yy[..nInUse], zPend, i + 1, nInUse + 1) && wr == |s|
    ensures Written(arr1[..], s, mtfFreq[..]) && PtrsFrom(arr1[..], p, i + 1)
  {
    hide *;
    ghost var y := yy[..nInUse];
    EncodingFacts(c, y0, s0, y, zPend0, i, nInUse + 1);
    PtrsLater(arr1[..], p, i);
    assert yy[0] == y[0];
    if yy[0] == ll {
      EncodeFront(c, y0, s0, y, zPend0, i, nInUse + 1);
      wr, zPend, s := wr0, zPend0 + 1, s0;
    } else {
      EncodeLiteral(c, y0, s0, y, zPend0, i, nInUse + 1);
      wr := FlushRun(arr1, mtfFreq, wr0, zPend0, s0, p, i);
      PtrsLater(arr1[..], p, i);
      ghost var at := IndexOf(y, ll);
      IndexInList(yy[..], nInUse, ll);
      assert yy[..nInUse] == y;
      ghost var a, f, z := arr1[..], mtfFreq[..], yy[..];
      var j := MoveUp(yy, ll, at);
      PrefixToFront(z, nInUse, at);
      assert yy[..nInUse] == yy[..][..nInUse] == ToFront(y, at);
      assert arr1[..] == a && mtfFreq[..] == f;
      s := s0 + RunCode(zPend0);
      wr := PutSymbol(arr1, mtfFreq, wr, j + 1, s, p, i + 1);
      s := s + [j + 1];
      zPend := 0;
    }
  }

  lemma IndexInList(a: seq<int>, n: nat, x: int)
    requires n <= |a| && x in a[..n]
    ensures var at := IndexOf(a[..n], x); at < n && a[at] == x && forall k :: 0 <= k < at ==> a[k] != x
  {
    var at := IndexOf(a[..n], x);
    assert a[..n][at] == a[at];
    forall k | 0 <= k < at ensures a[k] != x {
      assert a[..n][k] == a[k];
    }
  }
}
