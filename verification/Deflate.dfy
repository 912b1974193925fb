/** deflate.c from the input to the tokens in d_buf and l_buf: the sliding window, the matchers of all
    levels but 0 and of all strategies, and deflate itself. What happens to a block after it is tallied,
    and so when the output buffer is full, is left open. */
module Deflate {
  import opened Bits
  import opened ByteSeq
  import opened DeflateHash
  import opened DeflateChains
  import opened DeflateMatch
  import opened DeflateSteps
  import opened DeflateTokens
  import opened DeflateWindow
  import T = InflateWindow

  datatype Flush = NoFlush | PartialFlush | SyncFlush | FullFlush | Finish | Block
  datatype BlockState = NeedMore | BlockDone | FinishStarted | FinishDone
  datatype Code = Ok | StreamEnd | StreamError | BufError

  function Number(f: Flush): int {
    match f
    case NoFlush => 0
    case PartialFlush => 1
    case SyncFlush => 2
    case FullFlush => 3
    case Finish => 4
    case Block => 5
  }

  /** The macro RANK: Z_BLOCK comes between Z_NO_FLUSH and Z_PARTIAL_FLUSH. */
  function Rank(f: int): int { 2 * f - (if f > 4 then 9 else 0) }

  /** The order in which a flush asks for more than another. */
  ghost const EAGER: seq<Flush> := [NoFlush, Block, PartialFlush, SyncFlush, FullFlush, Finish]

  /** Ranks put the flushes in that order; no rank is as low as that of -1. */
  lemma RanksInOrder(i: nat, j: nat)
    requires i < 6 && j < 6
    ensures Rank(Number(EAGER[i])) <= Rank(Number(EAGER[j])) <==> i <= j
    ensures Rank(-1) < Rank(Number(EAGER[i]))
  {
    assert Rank(0) == 0 && Rank(5) == 1 && Rank(1) == 2 && Rank(2) == 4 && Rank(3) == 6 && Rank(4) == 8;
  }

  const CONFIGURATION: seq<Config> :=
    [Config(0, 0, 0, 0), Config(4, 4, 8, 4), Config(4, 5, 16, 8), Config(4, 6, 32, 32), Config(4, 4, 16, 16),
    Config(8, 16, 32, 32), Config(8, 16, 128, 128), Config(8, 32, 128, 256), Config(32, 128, 258, 1024),
    Config(32, 258, 258, 4096)]

  /** The parameters of a level, from level 1 on. */
  ghost function ConfigOf(level: nat): (c: Config)
    requires 1 <= level <= 9
    ensures c.maxChain >= 4 && c.maxLazy <= 258
  {
    match level
    case 1 => Config(4, 4, 8, 4)
    case 2 => Config(4, 5, 16, 8)
    case 3 => Config(4, 6, 32, 32)
    case 4 => Config(4, 4, 16, 16)
    case 5 => Config(8, 16, 32, 32)
    case 6 => Config(8, 16, 128, 128)
    case 7 => Config(8, 32, 128, 256)
    case 8 => Config(32, 128, 258, 1024)
    case _ => Config(32, 258, 258, 4096)
  }

  lemma ConfigIs(level: nat)
    requires 1 <= level <= 9
    ensures |CONFIGURATION| == 10 && CONFIGURATION[level] == ConfigOf(level)
  {
  }

  /** A higher level never searches less than one below it that uses the same matcher. */
  lemma LevelsSearchMore(level: nat)
    requires 1 <= level < 9 && level != 3
    ensures var c, d := ConfigOf(level), ConfigOf(level + 1);
      c.maxChain <= d.maxChain && c.niceLength <= d.niceLength && c.maxLazy <= d.maxLazy && c.goodLength <= d.goodLength
  {
  }

  /** The matcher of a strategy, or else of a level. */
  ghost function FuncOf(level: nat, strategy: Strategy): Func {
    match strategy
    case HuffmanOnly => Huffman
    case Rle => RunLength
    case _ => if level < 4 then Fast else Slow
  }

  lemma FuncIs(level: nat, strategy: Strategy)
    ensures FuncOf(level, strategy) ==
      if strategy.HuffmanOnly? then Huffman else if strategy.Rle? then RunLength else if level <= 3 then Fast else Slow
  {
  }

  /** hash_mask for memLevel + 7 bits. */
  function MaskOf(memLevel: nat): bv32
    requires 1 <= memLevel <= 9
  {
    (1 << (memLevel + 7)) - 1
  }

  /** hash_shift: the bits divided by MIN_MATCH, rounded up; a number from 3 to 6, as a word. */
  function ShiftOf(memLevel: nat): bv32
    requires 1 <= memLevel <= 9
  {
    var shift := (memLevel + 7 + 2) / 3;
    if shift == 3 then 3 else if shift == 4 then 4 else if shift == 5 then 5 else 6
  }

  lemma MasksBelow5()
    ensures MaskOf(1) == 0xff
    ensures MaskOf(2) == 0x1ff
    ensures MaskOf(3) == 0x3ff
    ensures MaskOf(4) == 0x7ff
  {
  }

  lemma MasksFrom5()
    ensures MaskOf(5) == 0xfff
    ensures MaskOf(6) == 0x1fff
    ensures MaskOf(7) == 0x3fff
    ensures MaskOf(8) == 0x7fff
    ensures MaskOf(9) == 0xffff
  {
  }

  lemma Shifts()
    ensures ShiftOf(1) == 3 && ShiftOf(2) == 3 && ShiftOf(3) == 4 && ShiftOf(4) == 4 && ShiftOf(5) == 4
    ensures ShiftOf(6) == 5 && ShiftOf(7) == 5 && ShiftOf(8) == 5 && ShiftOf(9) == 6
  {
  }

  /** The hash has memLevel + 7 bits, and each byte shifts it by a third of them, rounded up. */
  lemma HashSizes(memLevel: nat)
    requires 1 <= memLevel <= 9
    ensures Size(MaskOf(memLevel)) == Pow2(memLevel + 7)
    ensures var k := ShiftOf(memLevel) as nat; 3 * (k - 1) < memLevel + 7 <= 3 * k
  {
    hide MaskOf;
    hide ShiftOf;
    MasksBelow5();
    MasksFrom5();
    Shifts();
    assert Pow2(8) == 256 && Pow2(9) == 512 && Pow2(10) == 1024 && Pow2(11) == 2048;
    assert Pow2(12) == 4096 && Pow2(13) == 8192;
    assert Pow2(14) == 16384;
    assert Pow2(15) == 32768;
    assert Pow2(16) == 65536;
  }

  lemma HashProper(memLevel: nat)
    requires 1 <= memLevel <= 9
    ensures Proper(MaskOf(memLevel), ShiftOf(memLevel))
  {
    hide MaskOf;
    hide ShiftOf;
    MasksBelow5();
    MasksFrom5();
    Shifts();
  }

  lemma Powers(wbits: nat, memLevel: nat)
    requires 9 <= wbits <= 15 && 1 <= memLevel <= 9
    ensures 512 <= Pow2(wbits) <= 32768 && Pow2(memLevel + 6) >= 128
  {
    Pow2Sum(9, wbits - 9);
    Pow2Sum(wbits, 15 - wbits);
    Pow2Sum(7, memLevel - 1);
    assert Pow2(9) == 512 && Pow2(7) == 128;
    assert Pow2(15) == 32768 by { Pow2Sum(8, 7); }
    MulAtLeast(Pow2(15 - wbits), Pow2(wbits));
    MulAtLeast(Pow2(wbits - 9), 512);
    MulAtLeast(Pow2(memLevel - 1), 128);
  }

  /** The tokens tallied tell the input up to told, those in flushed blocks that up to flushed. */
  ghost predicate Tallied(data: seq<int>, tokens: seq<T.Token>, told: nat, done: seq<T.Token>, flushed: nat,
                          dBuf: seq<int>, lBuf: seq<int>, n: nat, reach: nat) {
    Tells(data, tokens, told, reach) && Tells(data, done, flushed, reach) && T.Coded(tokens) &&
    |dBuf| == |lBuf| && n < |lBuf| && tokens == done + Buffered(dBuf, lBuf, n)
  }

  lemma TalliedMore(data: seq<int>, more: seq<int>, tokens: seq<T.Token>, told: nat, done: seq<T.Token>, flushed: nat,
                    dBuf: seq<int>, lBuf: seq<int>, n: nat, reach: nat)
    requires Tallied(data, tokens, told, done, flushed, dBuf, lBuf, n, reach)
    ensures Tallied(data + more, tokens, told, done, flushed, dBuf, lBuf, n, reach)
  {
    hide Tells;
    hide T.Coded;
    TellsMore(data, more, tokens, told, reach);
    TellsMore(data, more, done, flushed, reach);
  }

  lemma CodedMore(ts: seq<T.Token>, t: T.Token)
    requires T.Coded(ts) && (t.Copy? ==> 3 <= t.len <= 258 && 1 <= t.dist <= 32768)
    ensures T.Coded(ts + [t])
  {
  }

  lemma TalliedLiteral(data: seq<int>, tokens: seq<T.Token>, told: nat, done: seq<T.Token>, flushed: nat,
                       dBuf: seq<int>, lBuf: seq<int>, n: nat, reach: nat)
    requires Tallied(data, tokens, told, done, flushed, dBuf, lBuf, n, reach) && n + 1 < |lBuf| && told < |data|
    ensures Tallied(data, tokens + [T.Literal(data[told])], told + 1, done, flushed, dBuf[n := 0],
      lBuf[n := data[told]], n + 1, reach)
  {
    hide Tells;
    hide T.Coded;
    TellsLiteral(data, tokens, told, reach);
    CodedMore(tokens, T.Literal(data[told]));
    BufferedNext(dBuf, lBuf, n, 0, data[told], done, tokens);
  }

  lemma TalliedCopy(data: seq<int>, tokens: seq<T.Token>, told: nat, done: seq<T.Token>, flushed: nat,
                    dBuf: seq<int>, lBuf: seq<int>, n: nat, reach: nat, from: nat, len: nat)
    requires Tallied(data, tokens, told, done, flushed, dBuf, lBuf, n, reach) && n + 1 < |lBuf|
    requires Repeats(data, from, told, len, reach) && reach <= 32768
    ensures Tallied(data, tokens + [T.Copy(len, told - from)], told + len, done, flushed,
                    dBuf[n := told - from], lBuf[n := len - 3], n + 1, reach)
  {
    hide Tells;
    hide T.Coded;
    TellsCopy(data, tokens, told, reach, from, len);
    CodedMore(tokens, T.Copy(len, told - from));
    BufferedNext(dBuf, lBuf, n, told - from, len - 3, done, tokens);
  }

  /** A block is flushed: nothing is left in the buffers. */
  lemma TalliedFlushed(data: seq<int>, tokens: seq<T.Token>, told: nat, done: seq<T.Token>, flushed: nat,
                       dBuf: seq<int>, lBuf: seq<int>, n: nat, reach: nat)
    requires Tallied(data, tokens, told, done, flushed, dBuf, lBuf, n, reach)
    ensures Tallied(data, tokens, told, tokens, told, dBuf, lBuf, 0, reach) && flushed <= |data| && told <= |data|
    ensures n == 0 ==> flushed == told
  {
    hide T.Coded;
    BufferedNone(dBuf, lBuf);
    assert tokens + [] == tokens;
    if n == 0 {
      assert done + [] == done;
      assert |data[..told]| == told && |data[..flushed]| == flushed;
    }
  }

  /** memcpy of the upper half of the window to the lower. */
  method CopyDown(window: array<int>, wsize: nat)
    requires window.Length == 2 * wsize
    modifies window
    ensures window[..] == old(window[wsize..] + window[wsize..])
  {
    var i := 0;
    while i < wsize
      invariant 0 <= i <= wsize
      invariant forall k :: 0 <= k < i ==> window[k] == old(window[wsize + k])
      invariant forall k :: i <= k < window.Length ==> window[k] == old(window[k])
    {
      window[i] := window[wsize + i];
      i := i + 1;
    }
  }

  /** memcpy into the window. */
  method CopyIn(window: array<int>, at: nat, bytes: seq<int>)
    requires at + |bytes| <= window.Length
    modifies window
    ensures window[..] == old(window[..at]) + bytes + old(window[at + |bytes|..])
  {
    var i := 0;
    while i < |bytes|
      invariant 0 <= i <= |bytes|
      invariant forall k :: 0 <= k < i ==> window[at + k] == bytes[k]
      invariant forall k :: 0 <= k < window.Length && !(at <= k < at + i) ==> window[k] == old(window[k])
    {
      window[at + i] := bytes[i];
      i := i + 1;
    }
  }

  lemma CopiedIn(w: seq<int>, w': seq<int>, at: nat, bytes: seq<int>)
    requires at + |bytes| <= |w| && AreBytes(w) && AreBytes(bytes) && w' == w[..at] + bytes + w[at + |bytes|..]
    ensures |w'| == |w| && AreBytes(w') && w'[..at] == w[..at] && w'[at..at + |bytes|] == bytes
  {
    forall i | 0 <= i < |w'| ensures 0 <= w'[i] < 256 {
      assert w'[i] == if i < at then w[i] else if i < at + |bytes| then bytes[i - at] else w[i];
    }
  }

  lemma TakeBytes(input: seq<int>, n: nat)
    requires AreBytes(input) && n <= |input|
    ensures AreBytes(input[..n]) && AreBytes(input[n..]) && input == input[..n] + input[n..]
  {
  }

  lemma AppendTwice(a: seq<int>, b: seq<int>, c: seq<int>)
    ensures a + b + c == a + (b + c) && a <= a + b
  {
  }

  /** memzero beyond the data. */
  method ZeroFill(window: array<int>, at: nat, n: nat)
    requires at + n <= window.Length && AreBytes(window[..])
    modifies window
    ensures window[..at] == old(window[..at]) && AreBytes(window[..])
  {
    var i := 0;
    while i < n
      invariant 0 <= i <= n && AreBytes(window[..])
      invariant forall k :: 0 <= k < at ==> window[k] == old(window[k])
    {
      window[at + i] := 0;
      i := i + 1;
    }
  }

  lemma PrefixOf(w: seq<int>, w': seq<int>, at: nat, end: nat)
    requires |w| == |w'| && end <= at <= |w| && w[..at] == w'[..at]
    ensures w[..end] == w'[..end] && forall k :: 0 <= k < end ==> w[k] == w'[k]
  {
    assert w[..end] == w[..at][..end] && w'[..end] == w'[..at][..end];
    forall k | 0 <= k < end ensures w[k] == w'[k] {
      assert w[..end][k] == w[k] && w'[..end][k] == w'[k];
    }
  }

  /** The loops over head and prev, from the end. */
  method LowerAll(a: array<int>, wsize: nat)
    modifies a
    ensures a[..] == Lowered(old(a[..]), wsize)
  {
    var n := a.Length;
    while n > 0
      invariant 0 <= n <= a.Length
      invariant forall i :: 0 <= i < n ==> a[i] == old(a[i])
      invariant forall i :: n <= i < a.Length ==> a[i] == Lower(old(a[i]), wsize)
    {
      n := n - 1;
      a[n] := Lower(a[n], wsize);
    }
  }

  lemma TalliedPrefix(data: seq<int>, tokens: seq<T.Token>, told: nat, done: seq<T.Token>, flushed: nat,
                      dBuf: seq<int>, lBuf: seq<int>, n: nat, reach: nat)
    requires Tallied(data, tokens, told, done, flushed, dBuf, lBuf, n, reach)
    ensures done <= tokens && n < |lBuf| && Tells(data, tokens, told, reach) && T.Coded(tokens)
    ensures n == 0 ==> done == tokens
  {
    hide Tells;
    hide T.Coded;
    if n == 0 { BufferedNone(dBuf, lBuf); }
  }

  lemma TalliedSplit(data: seq<int>, tokens: seq<T.Token>, told: nat, done: seq<T.Token>, flushed: nat,
                     dBuf: seq<int>, lBuf: seq<int>, n: nat, reach: nat)
    requires Tallied(data, tokens, told, done, flushed, dBuf, lBuf, n, reach)
    ensures n < |dBuf| == |lBuf| && tokens == done + Buffered(dBuf, lBuf, n)
  {
    hide Tells;
    hide T.Coded;
  }

  /** The tokens in the buffers, as they go to _tr_flush_block. */
  method BlockOf(dBuf: array<int>, lBuf: array<int>, n: nat) returns (block: seq<T.Token>)
    requires n <= dBuf.Length && n <= lBuf.Length
    ensures block == Buffered(dBuf[..], lBuf[..], n)
  {
    block := [];
    var i := 0;
    while i < n
      invariant 0 <= i <= n && |block| == i && forall k :: 0 <= k < i ==> block[k] == TokenOf(dBuf[k], lBuf[k])
    {
      block := block + [TokenOf(dBuf[i], lBuf[i])];
      i := i + 1;
    }
  }

  /** Whether the output buffer is full, which is left open unless it is known to be ample. */
  method OutOfRoom(ample: bool) returns (full: bool)
    ensures ample ==> !full
  {
    if ample {
      full := false;
    } else {
      full := *;
    }
  }

  class Deflater {
    const wsize: nat
    const hashMask: bv32
    const hashShift: bv32
    const litBufsize: nat
    const config: Config
    const strategy: Strategy
    const func: Func
    const window: array<int>
    const prev: array<int>
    const head: array<int>
    const dBuf: array<int>
    const lBuf: array<int>

    var strstart: nat
    var lookahead: nat
    var insert: nat
    var insH: bv32
    var matchLength: nat
    // kept as an integer; in the source it wraps around below 0, and only differences of it are used
    var matchStart: int
    var prevLength: nat
    var prevMatch: int
    var matchAvailable: bool
    var blockStart: int
    var lastLit: nat
    var highWater: nat
    var finished: bool
    var lastFlush: int

    /** The input not yet read. */
    var input: seq<int>
    /** The tokens of the blocks that went to _tr_flush_block. */
    var done: seq<T.Token>

    /** The input read so far, and what has been told of it. */
    ghost var data: seq<int>
    ghost var own: seq<int>
    ghost var tokens: seq<T.Token>
    ghost var told: nat
    ghost var flushed: nat

    /** The strings in the hash table, by their places in the input; the steps made; and how many had been made when
        the table was last cleared. */
    ghost var ins: set<int>
    ghost var steps: seq<Step>
    ghost var epoch: nat
    /** How many blocks were flushed before their buffers were full. */
    ghost var short: nat
    /** Where in the input the match found last is. */
    ghost var found: int

    ghost function Policy(): Rules {
      Rules(hashMask, hashShift, wsize - MIN_LOOKAHEAD, func, strategy.Filtered?, config.maxLazy)
    }

    lemma PolicyIs()
      ensures Policy() == Rules(hashMask, hashShift, wsize - 262, func, strategy.Filtered?, config.maxLazy)
    {
    }

    /** The tokens come from steps that keep the rules. */
    ghost predicate Log()
      reads this`data, this`tokens, this`steps, this`epoch, this`ins, this`matchLength, this`matchAvailable, this`found
    {
      LogOf(Policy(), data, tokens, steps, epoch, ins, matchLength, matchAvailable, found)
    }

    lemma LogIs()
      ensures Log() <==> LogOf(Policy(), data, tokens, steps, epoch, ins, matchLength, matchAvailable, found)
    {
      hide LogOf;
    }

    /** More input, and more strings in the table. */
    lemma LogStill(data0: seq<int>, ins0: set<int>)
      requires LogOf(Policy(), data0, tokens, steps, epoch, ins0, matchLength, matchAvailable, found)
      requires data0 <= data && ins0 <= ins
      ensures Log()
    {
      hide *;
      LogGrows(Policy(), data0, tokens, steps, epoch, ins0, matchLength, matchAvailable, found, data, ins);
      LogIs();
    }

    /** MAX_DIST */
    ghost function Reach(): int { wsize - MIN_LOOKAHEAD }

    ghost predicate Sized() {
      512 <= wsize <= 32768 && Proper(hashMask, hashShift) && window.Length == 2 * wsize && prev.Length == wsize &&
      head.Length == Size(hashMask) && dBuf.Length == lBuf.Length == litBufsize && litBufsize >= 2 &&
      config.maxChain >= 4 && config.maxLazy <= MAX_MATCH &&
      window != prev && window != head && window != dBuf && window != lBuf && prev != head && prev != dBuf &&
      prev != lBuf &&
      head != dBuf && head != lBuf && dBuf != lBuf
    }

    /** The window and the tables, with end bytes of data. */
    ghost function Viewed(end: nat): View
      reads this`own, window, head, prev
    {
      View(hashMask, hashShift, wsize, window[..], end, head[..], prev[..], own)
    }

    ghost predicate Chained(end: nat, top: int)
      reads this`own, this`ins, this`data, window, head, prev
    {
      Sized() && Chains(Viewed(end), top) && Held(window[..], data, end) && Newest(Viewed(end), ins, |data| - end)
    }

    ghost predicate Buffers()
      reads this`data, this`tokens, this`told, this`done, this`flushed, this`lastLit, dBuf, lBuf
    {
      Sized() && Tallied(data, tokens, told, done, flushed, dBuf[..], lBuf[..], lastLit, Reach())
    }

    ghost predicate Rolled(p: nat)
      reads this`insH, window
    {
      Ready(hashMask, hashShift, insH, window[..], p)
    }

    lemma SizedParts()
      requires Sized()
      ensures 512 <= wsize <= 32768 && Proper(hashMask, hashShift) && window.Length == 2 * wsize && prev.Length == wsize
      ensures head.Length == Size(hashMask) >= 1 && dBuf.Length == lBuf.Length == litBufsize && litBufsize >= 2
      ensures config.maxChain >= 4 && config.maxLazy <= MAX_MATCH && Reach() == wsize - MIN_LOOKAHEAD
      ensures window != prev && window != head && prev != head && dBuf != lBuf
      ensures window != dBuf && window != lBuf && prev != dBuf && prev != lBuf && head != dBuf && head != lBuf
      ensures MIN_MATCH == 3 && MAX_MATCH == 258 && MIN_LOOKAHEAD == 262
    {
    }

    lemma ChainedParts(end: nat, top: int)
      requires Chained(end, top)
      ensures Sized() && Chains(Viewed(end), top) && Held(window[..], data, end) && Shape(Viewed(end)) &&
        AreBytes(window[..])
      ensures end <= 2 * wsize && end <= |data|
      ensures Viewed(end) == View(hashMask, hashShift, wsize, window[..], end, head[..], prev[..], own)
      ensures Newest(Viewed(end), ins, |data| - end)
    {
      hide Newest;
      hide HeadOk;
      hide OwnOk;
      hide PrevOk;
    }

    lemma ChainedIntro(end: nat, top: int)
      requires Sized() && Chains(View(hashMask, hashShift, wsize, window[..], end, head[..], prev[..], own), top) &&
        Held(window[..], data, end)
      requires Shape(View(hashMask, hashShift, wsize, window[..], end, head[..], prev[..], own)) &&
        Newest(View(hashMask, hashShift, wsize, window[..], end, head[..], prev[..], own), ins, |data| - end)
      ensures Chained(end, top)
    {
      hide Newest;
      hide Chains;
      hide Shape;
      hide Held;
    }

    lemma ViewedIs(end: nat)
      ensures Viewed(end) == View(hashMask, hashShift, wsize, window[..], end, head[..], prev[..], own)
    {
    }

    /* ---------- INSERT_STRING ---------- */

    /** UPDATE_HASH, with the third byte of the string at str. */
    lemma RolledNext(end: nat, top: int, str: nat)
      requires Chained(end, top) && str + 2 < end && Rolled(str)
      ensures 0 <= window[str + 2] < 256 && Shape(Viewed(end)) && Proper(hashMask, hashShift)
      ensures var h := Update(hashMask, hashShift, insH, Word(window[str + 2]));
        Index(h) == Key(Viewed(end), str) && Index(h) < head.Length &&
        Ready(hashMask, hashShift, h, window[..], str + 1)
    {
      hide Ready;
      hide KeyOf;
      hide Chains;
      hide Held;
      ChainedParts(end, top);
      ReadyAt(hashMask, hashShift, insH, window[..], str, 0);
      WindowByte(str + 2);
      ReadyNext(hashMask, hashShift, insH, window[..], str);
      UpdateFits(hashMask, hashShift, insH, Word(window[str + 2]));
    }

    lemma WindowByte(i: nat)
      requires AreBytes(window[..]) && i < window.Length
      ensures 0 <= window[i] < 256
    {
      assert window[..][i] == window[i];
    }

    lemma RolledIs(p: nat)
      ensures Rolled(p) <==> Ready(hashMask, hashShift, insH, window[..], p)
    {
      hide Ready;
    }

    method InsertString(str: nat, ghost end: nat, ghost top: int) returns (hashHead: int)
      requires Chained(end, top) && top <= str && str + 2 < end && Rolled(str)
      modifies this`insH, this`own, this`ins, head, prev
      ensures Chained(end, str + 1) && Rolled(str + 1)
      ensures Shape(Viewed(end)) && str + 2 < |window[..]| && Link(Viewed(end), hashHead, str, Key(Viewed(end), str))
      ensures old(Shape(Viewed(end))) && Viewed(end) == Inserted(old(Viewed(end)), str)
      ensures ins == old(ins) + {|data| - end + str}
      ensures HeadFor(Policy(), data, old(ins), |data| - end, |data| - end + str, hashHead)
    {
      hide *;
      ChainedParts(end, top);
      SizedParts();
      ghost var v := Viewed(end);
      ghost var base := |data| - end;
      Insert(v, str, top);
      NewestInsert(v, ins, base, str, top);
      PolicyIs();
      HeadForIs(Policy(), v, ins, data, str, top);
      InsertedIs(v, str);
      InsertedShape(v, str);
      ShapeParts(v);
      Remainder(str, wsize);
      RolledNext(end, top, str);
      insH := Update(hashMask, hashShift, insH, Word(window[str + 2]));
      hashHead := head[Index(insH)];
      prev[str % wsize] := hashHead;
      head[Index(insH)] := str;
      own := own[str % wsize := str];
      ins := ins + {base + str};
      assert window[..] == v.w && prev[..] == v.prev[str % wsize := hashHead] && head[..] == v.head[Index(insH) := str];
      ViewedIs(end);
      RolledIs(str + 1);
      ChainedIntro(end, str + 1);
    }

    /* ---------- between two steps of a matcher ---------- */

    /** The place in the input of the first byte in the window. */
    ghost function Base(): int
      reads this`data, this`strstart, this`lookahead
    {
      |data| - strstart - lookahead
    }

    ghost predicate Places()
      reads this`data, this`strstart, this`lookahead, this`blockStart, this`flushed, this`told, this`insert,
        this`matchAvailable,
            this`prevLength
    {
      blockStart == flushed - Base() && insert <= 2 && insert <= strstart &&
      told == |data| - lookahead - (if matchAvailable then 1 else 0) &&
      (matchAvailable ==> strstart >= 1 && func.Slow?) && (func.Fast? ==> prevLength == 2)
    }

    /** A match found at the step before, and not yet tallied. */
    ghost predicate Waiting()
      reads this`data, this`strstart, this`lookahead, this`told, this`matchLength, this`matchStart, this`matchAvailable,
        this`found
    {
      (func.Slow? ==> matchLength >= 2) &&
      (matchLength >= MIN_MATCH ==>
        matchAvailable && Repeats(data, Base() + matchStart, told, matchLength, Reach()) &&
        found == Base() + matchStart)
    }

    ghost predicate Mid()
      reads this`own, this`ins, this`data, this`tokens, this`told, this`done, this`flushed, this`lastLit, this`strstart,
        this`lookahead,
            this`blockStart, this`insert, this`matchAvailable, this`prevLength, this`matchLength, this`matchStart,
            this`found,
            window, head, prev, dBuf, lBuf
    {
      Chained(strstart + lookahead, strstart - insert) && Buffers() && Places() && Waiting()
    }

    /** The hash is that of the next string, and none before it is left to insert. */
    ghost predicate Settled()
      reads this`lookahead, this`insert, this`insH, this`strstart, window
    {
      lookahead >= MIN_MATCH ==> insert == 0 && (func.Fast? || func.Slow? ==> Rolled(strstart))
    }

    ghost predicate Top()
      reads this`insH, this`own, this`ins, this`data, this`tokens, this`told, this`done, this`flushed, this`lastLit,
        this`strstart, this`lookahead,
            this`blockStart, this`insert, this`matchAvailable, this`prevLength, this`matchLength, this`matchStart,
            this`found,
            window, head, prev, dBuf, lBuf
    {
      Mid() && Settled()
    }

    lemma TopParts()
      requires Top()
      ensures Mid() && Settled() && Chained(strstart + lookahead, strstart - insert) && Buffers() && Places() &&
        Waiting() && Sized()
    {
      hide Chains;
      hide Held;
      hide Settled;
      hide Places;
      hide Waiting;
      hide Tallied;
    }

    lemma MidParts()
      requires Mid()
      ensures Chained(strstart + lookahead, strstart - insert) && Buffers() && Places() && Waiting() && Sized()
    {
      hide Chains;
      hide Held;
      hide Places;
      hide Waiting;
      hide Tallied;
    }

    lemma MidIntro()
      requires Chained(strstart + lookahead, strstart - insert) && Buffers() && Places() && Waiting()
      ensures Mid()
    {
      hide Chained;
      hide Buffers;
      hide Places;
      hide Waiting;
    }

    lemma TopIntro()
      requires Mid() && Settled()
      ensures Top()
    {
      hide Mid;
      hide Settled;
    }

    lemma BaseIs()
      ensures Base() == |data| - strstart - lookahead
    {
    }

    lemma PlacesParts()
      requires Places()
      ensures blockStart == flushed - Base() && insert <= 2 && insert <= strstart
      ensures told == |data| - lookahead - (if matchAvailable then 1 else 0)
      ensures (matchAvailable ==> strstart >= 1 && func.Slow?) && (func.Fast? ==> prevLength == 2)
      ensures Base() == |data| - strstart - lookahead
    {
    }

    lemma PlacesIntro()
      requires blockStart == flushed - Base() && insert <= 2 && insert <= strstart
      requires told == |data| - lookahead - (if matchAvailable then 1 else 0)
      requires (matchAvailable ==> strstart >= 1 && func.Slow?) && (func.Fast? ==> prevLength == 2)
      ensures Places()
    {
    }

    lemma WaitingIs()
      ensures Waiting() ==> (func.Slow? ==> matchLength >= 2)
      ensures Waiting() ==>
        (matchLength >= MIN_MATCH ==>
          matchAvailable && Repeats(data, Base() + matchStart, told, matchLength, Reach()) &&
          found == Base() + matchStart)
      ensures (func.Slow? ==> matchLength >= 2) && matchLength < MIN_MATCH ==> Waiting()
      ensures (matchLength >= 2 && matchAvailable && found == Base() + matchStart &&
        Repeats(data, Base() + matchStart, told, matchLength, Reach())) ==> Waiting()
    {
      hide Repeats;
    }

    lemma SettledIs()
      ensures Settled() <==>
        (lookahead >= 3 ==>
        insert == 0 && (func.Fast? || func.Slow? ==> Ready(hashMask, hashShift, insH, window[..], strstart)))
    {
      hide Ready;
    }

    lemma BuffersParts()
      requires Buffers()
      ensures Sized() && Tallied(data, tokens, told, done, flushed, dBuf[..], lBuf[..], lastLit, Reach())
    {
      hide Tallied;
    }

    lemma BuffersIntro()
      requires Sized() && Tallied(data, tokens, told, done, flushed, dBuf[..], lBuf[..], lastLit, Reach())
      ensures Buffers()
    {
      hide Tallied;
    }

    /* ---------- fill_window ---------- */

    /** The window and the tables are moved up by the window size. */
    method SlideTables(ghost end: nat, ghost top: int)
      requires Chained(end, top) && end >= wsize
      modifies window, head, prev, this`own, this`ins
      ensures Chained(end - wsize, top - wsize) && window[..] == old(window[wsize..] + window[wsize..])
      ensures ins == old(ins)
    {
      hide *;
      ChainedParts(end, top);
      SizedParts();
      ghost var v := Viewed(end);
      DeflateChains.Slide(v, top);
      NewestSlid(v, ins, |data| - end);
      HeldSlid(window[..], data, end, wsize);
      CopyDown(window, wsize);
      ghost var w := window[..];
      LowerAll(head, wsize);
      ghost var h := head[..];
      LowerAll(prev, wsize);
      own := Dropped(own, wsize);
      assert window[..] == w && head[..] == h;
      SlidView(v, w, h, prev[..], own);
      ChainedIntro(end - wsize, top - wsize);
    }

    /** A slide moves every position in the window down. */
    method Slide()
      requires Top() && strstart >= wsize + (wsize - MIN_LOOKAHEAD)
      modifies window, head, prev, this`strstart, this`matchStart, this`blockStart, this`own, this`ins
      ensures Top() && strstart == old(strstart) - wsize && Base() + matchStart == old(Base() + matchStart)
      ensures ins == old(ins)
    {
      hide *;
      TopParts();
      SizedParts();
      ghost var end, top := strstart + lookahead, strstart - insert;
      ChainedParts(end, top);
      PlacesParts();
      WaitingIs();
      SettledIs();
      if lookahead >= 3 && (func.Fast? || func.Slow?) {
        ReadySlid(hashMask, hashShift, insH, window[..], strstart, wsize, Viewed(end));
      }
      SlideTables(end, top);
      strstart, matchStart, blockStart := strstart - wsize, matchStart - wsize, blockStart - wsize;
      BaseIs();
      PlacesIntro();
      WaitingIs();
      SettledIs();
      MidIntro();
      TopIntro();
    }

    /** The next n bytes of the input, into the window. */
    method Load(n: nat, ghost end: nat, ghost top: int)
      requires Chained(end, top) && AreBytes(input) && n <= |input| && end + n <= 2 * wsize &&
        end == strstart + lookahead
      modifies window, this`input, this`data
      ensures Chained(end + n, top) && AreBytes(input)
      ensures data == old(data + input[..n]) && input == old(input[n..]) && data + input == old(data + input)
      ensures old(data) <= data
    {
      hide *;
      ChainedParts(end, top);
      SizedParts();
      ghost var v := Viewed(end);
      ghost var w, h, p := window[..], head[..], prev[..];
      TakeBytes(input, n);
      ghost var bytes := input[..n];
      AppendTwice(data, bytes, input[n..]);
      CopyIn(window, strstart + lookahead, input[..n]);
      CopiedIn(w, window[..], end, bytes);
      Grow(v, top, window[..], end + n);
      NewestGrow(v, ins, |data| - end, window[..], end + n);
      GrownIs(v, window[..], end + n);
      HeldMore(w, data, end, window[..], bytes);
      data := data + input[..n];
      input := input[n..];
      assert head[..] == h && prev[..] == p;
      ChainedIntro(end + n, top);
    }

    /** read_buf: as much of the input as there is, and as there is room for. */
    method ReadBuf(more: nat)
      requires Top() && AreBytes(input) && strstart + lookahead + more <= 2 * wsize
      modifies window, this`input, this`data, this`lookahead
      ensures Mid() && AreBytes(input) && data + input == old(data + input) && Base() == old(Base())
      ensures lookahead == old(lookahead) + (if more <= |old(input)| then more else |old(input)|)
      ensures |data| - lookahead == old(|data| - lookahead) && |input| + lookahead == old(|input| + lookahead)
      ensures old(data) <= data
    {
      hide *;
      TopParts();
      SizedParts();
      PlacesParts();
      WaitingIs();
      BuffersParts();
      ghost var d, l := dBuf[..], lBuf[..];
      var n := if more <= |input| then more else |input|;
      ghost var bytes := input[..n];
      if matchLength >= MIN_MATCH { RepeatsMore(data, bytes, Base() + matchStart, told, matchLength, Reach()); }
      TalliedMore(data, bytes, tokens, told, done, flushed, dBuf[..], lBuf[..], lastLit, Reach());
      Load(n, strstart + lookahead, strstart - insert);
      lookahead := lookahead + n;
      assert dBuf[..] == d && lBuf[..] == l;
      BaseIs();
      PlacesIntro();
      WaitingIs();
      BuffersIntro();
      MidIntro();
    }

    /** The strings that had not enough bytes behind them are inserted. */
    method CatchUp(ghost end: nat)
      requires Chained(end, strstart - insert) && insert <= 2 && insert <= strstart && Rolled(strstart - insert)
      requires end == strstart + lookahead && lookahead + insert >= 3
      modifies this`insH, this`insert, this`own, this`ins, head, prev
      ensures Chained(end, strstart - insert) && insert <= 2 && insert <= strstart && Sized()
      ensures lookahead >= 3 ==> insert == 0 && Rolled(strstart)
      ensures old(ins) <= ins
    {
      hide *;
      ChainedParts(end, strstart - insert);
      SizedParts();
      var str := strstart - insert;
      while insert > 0
        invariant insert <= 2 && insert <= strstart && str == strstart - insert && Chained(end, str) && Rolled(str)
        invariant lookahead + insert >= 3 && old(ins) <= ins
      {
        var hashHead := InsertString(str, end, str);
        str := str + 1;
        insert := insert - 1;
        if lookahead + insert < MIN_MATCH { break; }
      }
    }

    /** The rolling hash starts afresh. */
    method InitHash()
      requires Mid()
      modifies this`insH, this`insert, this`own, this`ins, head, prev
      ensures Top() && old(ins) <= ins
    {
      hide *;
      MidParts();
      SizedParts();
      PlacesParts();
      ChainedParts(strstart + lookahead, strstart - insert);
      if lookahead + insert >= MIN_MATCH {
        var str := strstart - insert;
        ReadyStart(hashMask, hashShift, window[..], str);
        insH := Word(window[str]);
        insH := Update(hashMask, hashShift, insH, Word(window[str + 1]));
        RolledIs(str);
        CatchUp(strstart + lookahead);
        RolledIs(strstart);
      }
      PlacesIntro();
      SettledIs();
      MidIntro();
      TopIntro();
    }

    /** Bytes after the data are cleared. */
    method ZeroAfter(at: nat, n: nat)
      requires Top() && strstart + lookahead <= at && at + n <= 2 * wsize
      modifies window
      ensures Top()
    {
      hide *;
      TopParts();
      SizedParts();
      ghost var end, top := strstart + lookahead, strstart - insert;
      ChainedParts(end, top);
      SettledIs();
      ghost var v := Viewed(end);
      ghost var w, h, p := window[..], head[..], prev[..];
      ZeroFill(window, at, n);
      assert head[..] == h && prev[..] == p;
      PrefixOf(w, window[..], at, end);
      Grow(v, top, window[..], end);
      NewestGrow(v, ins, |data| - end, window[..], end);
      GrownIs(v, window[..], end);
      HeldSame(w, data, end, window[..]);
      ChainedIntro(end, top);
      if lookahead >= 3 && (func.Fast? || func.Slow?) {
        ReadySame(hashMask, hashShift, insH, w, strstart, window[..], strstart);
      }
      SettledIs();
      MidIntro();
      TopIntro();
    }

    /** Bytes after the data that longest_match may look at are given a value. */
    method ZeroAhead()
      requires Top()
      modifies window, this`highWater
      ensures Top()
    {
      hide *;
      TopParts();
      SizedParts();
      ChainedParts(strstart + lookahead, strstart - insert);
      if highWater < 2 * wsize {
        var curr := strstart + lookahead;
        if highWater < curr {
          var init := 2 * wsize - curr;
          if init > MAX_MATCH { init := MAX_MATCH; }
          ZeroAfter(curr, init);
          highWater := curr + init;
        } else if highWater < curr + MAX_MATCH {
          var init := curr + MAX_MATCH - highWater;
          if init > 2 * wsize - highWater { init := 2 * wsize - highWater; }
          ZeroAfter(highWater, init);
          highWater := highWater + init;
        }
      }
    }

    /** fill_window: as much input as the window takes, after sliding it if it is almost full. The loop in
        the source never takes a second turn. */
    method FillWindow()
      requires Top() && AreBytes(input) && lookahead < MIN_LOOKAHEAD
      modifies window, head, prev, this`input, this`data, this`lookahead, this`strstart, this`matchStart,
        this`blockStart, this`own, this`ins,
               this`insH, this`insert, this`highWater
      ensures Top() && AreBytes(input) && data + input == old(data + input) &&
        |data| - lookahead == old(|data| - lookahead)
      ensures lookahead >= MIN_LOOKAHEAD || input == []
      ensures strstart + MIN_LOOKAHEAD <= 2 * wsize && lookahead >= old(lookahead)
      ensures |input| + lookahead == old(|input| + lookahead)
      ensures old(data) <= data && old(ins) <= ins
    {
      hide *;
      TopParts();
      SizedParts();
      ChainedParts(strstart + lookahead, strstart - insert);
      var more := 2 * wsize - lookahead - strstart;
      if strstart >= wsize + (wsize - MIN_LOOKAHEAD) {
        Slide();
        more := more + wsize;
      }
      if input != [] {
        assert more >= 2;
        ReadBuf(more);
        InitHash();
      }
      // the condition for another turn: what is not read does not fit, and then there is enough ahead
      assert lookahead >= MIN_LOOKAHEAD || input == [];
      TopParts();
      ChainedParts(strstart + lookahead, strstart - insert);
      ZeroAhead();
    }

    /* ---------- tallying and flushing ---------- */

    /** _tr_tally_lit */
    method TallyLit(c: int) returns (bflush: bool)
      requires Buffers() && lastLit + 1 < litBufsize && told < |data| && c == data[told]
      modifies dBuf, lBuf, this`lastLit, this`tokens, this`told
      ensures Buffers() && told == old(told) + 1 && (bflush <==> lastLit + 1 == litBufsize) && 0 < lastLit < litBufsize
      ensures tokens == old(tokens) + [T.Literal(c)]
    {
      hide *;
      BuffersParts();
      SizedParts();
      TalliedLiteral(data, tokens, told, done, flushed, dBuf[..], lBuf[..], lastLit, Reach());
      ghost var d, l := dBuf[..][lastLit := 0], lBuf[..][lastLit := c];
      dBuf[lastLit] := 0;
      lBuf[lastLit] := c;
      assert dBuf[..] == d && lBuf[..] == l;
      lastLit := lastLit + 1;
      bflush := lastLit == litBufsize - 1;
      tokens, told := tokens + [T.Literal(c)], told + 1;
      BuffersIntro();
    }

    /** _tr_tally_dist, for a match of length + 3 bytes. */
    method TallyDist(dist: int, length: int, ghost from: int) returns (bflush: bool)
      requires Buffers() && lastLit + 1 < litBufsize && Repeats(data, from, told, length + 3, Reach()) &&
        dist == told - from
      modifies dBuf, lBuf, this`lastLit, this`tokens, this`told
      ensures Buffers() && told == old(told) + length + 3 && (bflush <==> lastLit + 1 == litBufsize) &&
        0 < lastLit < litBufsize
      ensures tokens == old(tokens) + [T.Copy(length + 3, dist)]
    {
      hide *;
      BuffersParts();
      SizedParts();
      RepeatsParts(data, from, told, length + 3, Reach());
      TalliedCopy(data, tokens, told, done, flushed, dBuf[..], lBuf[..], lastLit, Reach(), from, length + 3);
      ghost var d, l := dBuf[..][lastLit := dist], lBuf[..][lastLit := length];
      dBuf[lastLit] := dist;
      lBuf[lastLit] := length;
      assert dBuf[..] == d && lBuf[..] == l;
      lastLit := lastLit + 1;
      bflush := lastLit == litBufsize - 1;
      tokens, told := tokens + [T.Copy(length + 3, dist)], told + length + 3;
      BuffersIntro();
    }

    /** FLUSH_BLOCK_ONLY. As long as the block began in the window, its bytes there are those its tokens tell. */
    method FlushBlockOnly(ghost end: nat, ghost top: int)
      requires Buffers() && Chained(end, top) && told == |data| - end + strstart && strstart <= end &&
        blockStart == flushed - (|data| - end)
      modifies this`blockStart, this`lastLit, this`done, this`flushed, this`short
      ensures short == old(short) + if old(lastLit) + 1 == litBufsize then 0 else 1
      ensures Buffers() && lastLit == 0 && flushed == told && done == tokens && blockStart == flushed - (|data| - end)
      ensures old(done) <= done
      ensures 0 <= old(blockStart) <= strstart ==> window[old(blockStart)..strstart] == data[old(flushed)..told]
    {
      hide *;
      BuffersParts();
      ChainedParts(end, top);
      SizedParts();
      TalliedFlushed(data, tokens, told, done, flushed, dBuf[..], lBuf[..], lastLit, Reach());
      TalliedPrefix(data, tokens, told, done, flushed, dBuf[..], lBuf[..], lastLit, Reach());
      if 0 <= blockStart <= strstart { HeldPart(window[..], data, end, blockStart, strstart); }
      TalliedSplit(data, tokens, told, done, flushed, dBuf[..], lBuf[..], lastLit, Reach());
      var block := BlockOf(dBuf, lBuf, lastLit);
      done := done + block;
      short := short + if lastLit + 1 == litBufsize then 0 else 1;
      lastLit, flushed := 0, told;
      blockStart := strstart;
      BuffersIntro();
    }

    /* ---------- one step of a matcher ---------- */

    /** The string at strstart has been inserted, if there is enough of it. */
    ghost predicate Looked(end: nat)
      reads this`own, this`ins, this`data, this`strstart, this`lookahead, this`insert, this`insH, window, head, prev
    {
      end == strstart + lookahead && Chained(end, strstart + 1 - insert) && insert <= 2 && insert <= strstart &&
      (lookahead >= MIN_MATCH ==> insert == 0 && Rolled(strstart + 1))
    }

    lemma LookedParts(end: nat)
      requires Looked(end)
      ensures end == strstart + lookahead && Chained(end, strstart + 1 - insert) && insert <= 2 && insert <= strstart
      ensures lookahead >= 3 ==> insert == 0 && Rolled(strstart + 1)
    {
      hide Chained;
      hide Rolled;
    }

    lemma LookedIntro(end: nat)
      requires end == strstart + lookahead && Chained(end, strstart + 1 - insert) && insert <= 2 && insert <= strstart
      requires lookahead >= 3 ==> insert == 0 && Rolled(strstart + 1)
      ensures Looked(end)
    {
      hide Chained;
      hide Rolled;
    }

    lemma ChainedLater(end: nat, top: int, top': int)
      requires Chained(end, top) && top <= top'
      ensures Chained(end, top')
    {
      hide Chains;
      hide Held;
      Later(Viewed(end), top, top');
    }

    /** Where the chain of the current string starts. */
    ghost predicate Candidate(end: nat, q: int)
      reads this`own, this`ins, this`strstart, window, head, prev
    {
      Shape(Viewed(end)) && strstart + 2 < end && Link(Viewed(end), q, strstart, Key(Viewed(end), strstart))
    }

    lemma CandidateIs(end: nat, q: int)
      requires Shape(Viewed(end)) && strstart + 2 < end && strstart + 2 < |window[..]| &&
        Link(Viewed(end), q, strstart, Key(Viewed(end), strstart))
      ensures Candidate(end, q)
    {
      hide Shape;
      hide Link;
      hide Key;
    }

    /** The insertion at the start of a step. */
    method FindString() returns (hashHead: int)
      requires Top() && lookahead > 0 && (func.Fast? || func.Slow?)
      modifies this`insH, this`own, this`ins, head, prev
      ensures Looked(strstart + lookahead) && Buffers() && Places() && Waiting()
      ensures hashHead != 0 ==> lookahead >= 3 && Candidate(strstart + lookahead, hashHead)
      ensures ins == if lookahead >= 3 then old(ins) + {|data| - lookahead} else old(ins)
      ensures lookahead >= 3 ==> HeadFor(Policy(), data, old(ins), Base(), |data| - lookahead, hashHead)
    {
      hide *;
      TopParts();
      SizedParts();
      PlacesParts();
      SettledIs();
      ghost var end := strstart + lookahead;
      hashHead := 0;
      BaseIs();
      if lookahead >= MIN_MATCH {
        RolledIs(strstart);
        hashHead := InsertString(strstart, end, strstart - insert);
        CandidateIs(end, hashHead);
      } else {
        ChainedLater(end, strstart - insert, strstart + 1 - insert);
      }
      LookedIntro(end);
    }

    /** longest_match, called for the current string. */
    method Search(hashHead: int, ghost end: nat) returns (ghost seen: seq<int>)
      requires Looked(end) && Candidate(end, hashHead) && hashHead != 0 && strstart - hashHead <= wsize - MIN_LOOKAHEAD
      requires lookahead >= 3 && 1 <= prevLength <= 258 && strstart + 262 <= 2 * wsize
      modifies this`matchLength, this`matchStart
      ensures matchLength <= lookahead && matchLength <= 258 && (matchLength >= prevLength || matchLength == lookahead)
      ensures matchLength > prevLength ==> Repeats(data, Base() + matchStart, |data| - lookahead, matchLength, Reach())
      ensures AsLong(data, Base() + hashHead, |data| - lookahead, lookahead, matchLength)
      ensures Walked(Viewed(end), seen, hashHead) && Shape(Viewed(end)) &&
        (matchLength < lookahead ==> NoneLonger(window[..], seen, strstart, matchLength))
      ensures DeflateMatch.Over(Viewed(end), seen, LimitOf(strstart, wsize), ChainLength(config, prevLength),
        matchLength,
        Nice(config, lookahead))
      ensures prevLength < matchLength < lookahead ==>
        (Same(data, Base() + hashHead, |data| - lookahead, matchLength) ==> matchStart == hashHead)
    {
      hide *;
      LookedParts(end);
      ChainedParts(end, strstart + 1 - insert);
      SizedParts();
      NearIs(end, hashHead);
      ghost var v := Viewed(end);
      matchLength, matchStart, seen :=
        LongestMatch(window, prev, wsize, strstart, lookahead, prevLength, matchStart, hashHead, config, v);
      BaseIs();
      NearParts(v, hashHead, strstart);
      ViewedIs(end);
      SearchLong(v, data, seen, hashHead, strstart, matchLength, lookahead);
      SameHeld(window[..], data, end, hashHead, strstart, matchLength);
      if matchLength > prevLength { FoundRepeats(v, data, matchStart, strstart, matchLength); }
    }

    lemma NearIs(end: nat, q: int)
      requires Candidate(end, q) && q != 0 && strstart - q <= wsize - MIN_LOOKAHEAD
      ensures Shape(Viewed(end)) && strstart + 2 < |window[..]| && Near(Viewed(end), q, strstart)
    {
      hide Link;
      hide Key;
    }

    /** A literal for the current string. */
    method Literal(ghost end: nat) returns (bflush: bool)
      requires Chained(end, strstart + 1 - insert) && end == strstart + lookahead && lookahead > 0 && Buffers() &&
        Places()
      requires lastLit + 1 < litBufsize && !func.Slow? && !matchAvailable && matchLength < 3
      requires lookahead >= 3 ==> insert == 0 && (func.Fast? || func.Slow? ==> Rolled(strstart + 1))
      modifies this`lookahead, this`strstart, this`lastLit, this`tokens, this`told, dBuf, lBuf
      ensures Top() && (bflush <==> lastLit + 1 == litBufsize) && lastLit < litBufsize &&
        lookahead == old(lookahead) - 1 && lastLit > 0
      ensures strstart - 1 < window.Length && tokens == old(tokens) + [T.Literal(window[strstart - 1])]
    {
      hide *;
      ChainedParts(end, strstart + 1 - insert);
      SizedParts();
      PlacesParts();
      HeldAt(window[..], data, end, strstart);
      if lookahead >= 3 && (func.Fast? || func.Slow?) { RolledIs(strstart + 1); }
      ghost var w, h, p := window[..], head[..], prev[..];
      bflush := TallyLit(window[strstart]);
      assert window[..] == w;
      lookahead := lookahead - 1;
      strstart := strstart + 1;
      BaseIs();
      PlacesIntro();
      WaitingIs();
      SettledIs();
      MidIntro();
      TopIntro();
    }

    /** The rest of a short match is inserted, string by string. */
    method InsertMatch(ghost end: nat)
      requires Chained(end, strstart + 1) && Rolled(strstart + 1) && matchLength >= 2 && lookahead >= 3
      requires end == strstart + matchLength + lookahead
      modifies this`insH, this`own, this`ins, this`strstart, this`matchLength, head, prev
      ensures Chained(end, strstart) && Rolled(strstart) && matchLength == 0 && end == strstart + lookahead
      ensures old(ins) <= ins && Entered(ins, |data| - end + old(strstart) + 1, |data| - end + strstart)
    {
      hide *;
      ChainedParts(end, strstart + 1);
      SizedParts();
      ghost var from := |data| - end + strstart + 1;
      EnteredNone(ins, from);
      matchLength := matchLength - 1;
      while true
        invariant matchLength >= 1 && end == strstart + 1 + matchLength + lookahead && Chained(end, strstart + 1) &&
          Rolled(strstart + 1)
        invariant old(ins) <= ins && Entered(ins, from, |data| - end + strstart + 1)
        decreases matchLength
      {
        strstart := strstart + 1;
        EnteredMore(ins, from, |data| - end + strstart);
        var hashHead := InsertString(strstart, end, strstart);
        matchLength := matchLength - 1;
        if matchLength == 0 { break; }
      }
      strstart := strstart + 1;
    }

    /** The other way past a match: the rolling hash starts afresh behind it. */
    method SkipMatch(ghost end: nat)
      requires Chained(end, strstart + 1) && matchLength >= 1 && end == strstart + matchLength + lookahead
      requires strstart + matchLength + 1 < 2 * wsize
      modifies this`insH, this`strstart, this`matchLength
      ensures Chained(end, strstart) && Rolled(strstart) && matchLength == 0 && end == strstart + lookahead
    {
      hide *;
      ChainedParts(end, strstart + 1);
      SizedParts();
      ChainedLater(end, strstart + 1, strstart + matchLength);
      strstart := strstart + matchLength;
      matchLength := 0;
      ReadyStart(hashMask, hashShift, window[..], strstart);
      insH := Word(window[strstart]);
      insH := Update(hashMask, hashShift, insH, Word(window[strstart + 1]));
      RolledIs(strstart);
    }

    /** deflate_fast takes a match. */
    method FastMatch(ghost end: nat) returns (bflush: bool)
      requires Looked(end) && Buffers() && Places() && func.Fast? && lastLit + 1 < litBufsize &&
        strstart + 262 <= 2 * wsize
      requires 3 <= matchLength <= 258 && matchLength <= lookahead
      requires Repeats(data, Base() + matchStart, |data| - lookahead, matchLength, Reach())
      modifies this`insH, this`own, this`ins, this`matchLength, this`lookahead, this`strstart, this`lastLit,
        this`tokens,
        this`told,
               head, prev, dBuf, lBuf
      ensures Top() && (bflush <==> lastLit + 1 == litBufsize) && lastLit < litBufsize && lookahead < old(lookahead) &&
        lastLit > 0
      ensures tokens == old(tokens) + [T.Copy(old(matchLength), old(strstart - matchStart))] && old(ins) <= ins
      ensures lookahead == old(lookahead - matchLength)
      ensures old(matchLength) <= config.maxLazy && lookahead >= 3 ==>
        Entered(ins, |data| - old(lookahead) + 1, |data| - old(lookahead) + old(matchLength))
    {
      hide *;
      LookedParts(end);
      ChainedParts(end, strstart + 1 - insert);
      SizedParts();
      PlacesParts();
      bflush := TallyDist(strstart - matchStart, matchLength - MIN_MATCH, Base() + matchStart);
      lookahead := lookahead - matchLength;
      if matchLength <= config.maxLazy && lookahead >= MIN_MATCH {
        InsertMatch(end);
      } else {
        SkipMatch(end);
      }
      BaseIs();
      PlacesIntro();
      WaitingIs();
      RolledIs(strstart);
      SettledIs();
      MidIntro();
      TopIntro();
    }

    /** One turn of the loop in deflate_fast, up to the flush: what it tells is logged. */
    method FastStep() returns (bflush: bool, ghost st: Step)
      requires Top() && func.Fast? && lookahead > 0 && strstart + 262 <= 2 * wsize && lastLit + 1 < litBufsize && Log()
      modifies this`insH, this`own, this`ins, this`matchLength, this`matchStart, this`lookahead, this`strstart,
        this`lastLit, this`tokens, this`told, this`steps, head, prev, dBuf, lBuf
      ensures Top() && (bflush <==> lastLit + 1 == litBufsize) && lastLit < litBufsize && lookahead < old(lookahead) &&
        lastLit > 0
      ensures old(ins) <= ins && Log() && |tokens| == |old(tokens)| + 1 && steps == old(steps) + [st]
      ensures st.at == |data| - old(lookahead) && st.ahead == old(lookahead) && st.base == old(Base()) &&
        st.ins == old(ins) && Greedy(Policy(), data, tokens[|tokens| - 1], st)
    {
      hide *;
      TopParts();
      SizedParts();
      PlacesParts();
      WaitingIs();
      LogIs();
      PolicyIs();
      ghost var end, tokens0, ins0, len0, waiting0 := strstart + lookahead, tokens, ins, matchLength, matchAvailable;
      ghost var at, base, ahead := |data| - lookahead, Base(), lookahead;
      BaseIs();
      var hashHead := FindString();
      if hashHead != 0 && strstart - hashHead <= wsize - MIN_LOOKAHEAD {
        ghost var seen := Search(hashHead, end);
      }
      ghost var len := matchLength;
      if matchLength >= MIN_MATCH {
        bflush := FastMatch(end);
      } else {
        LookedParts(end);
        bflush := Literal(end);
      }
      ghost var t := tokens[|tokens0|];
      st := Step(at, ahead, base, ins0, ins, 0, 0, false, |tokens0|, |tokens0| + 1, 0, 0);
      FastRule(Policy(), data, st, t, hashHead, len);
      RuleOne(Policy(), data, t, st);
      LogOne(st, tokens0, t, len0, waiting0, found);
    }

    /** The step just made is logged. */
    ghost method LogOne(st: Step, tokens0: seq<T.Token>, t: T.Token, len0: nat, waiting0: bool, found0: int)
      requires LogOf(Policy(), data, tokens0, steps, epoch, st.ins, len0, waiting0, found0) &&
        Rule(Policy(), data, [t], st)
      requires !func.Slow? && tokens == tokens0 + [t] && st.first == |tokens0| && st.last == |tokens0| + 1
      requires st.at + st.ahead == |data| && st.ins <= st.after == ins
      modifies this`steps
      ensures Log() && steps == old(steps) + [st]
    {
      hide *;
      PolicyIs();
      LogMore(Policy(), data, tokens0, steps, epoch, st.ins, len0, waiting0, found0, [t], st, matchLength,
        matchAvailable, found);
      steps := steps + [st];
      LogIs();
    }

    /** The strings of a match that the step before found are inserted, as far as there are bytes. */
    method PassMatch(ghost end: nat)
      requires Looked(end) && 3 <= prevLength <= lookahead + 1 && strstart >= 1
      modifies this`insH, this`own, this`ins, this`strstart, this`lookahead, this`prevLength, head, prev
      ensures Chained(end, strstart - insert) && end == strstart + lookahead && insert <= strstart && prevLength == 0
      ensures lookahead >= 3 ==> insert == 0 && Rolled(strstart)
      ensures lookahead == old(lookahead - (prevLength - 1)) && old(ins) <= ins
      ensures EnteredIn(ins, |data| - end + old(strstart) + 1, |data| - end + old(strstart - 1 + prevLength), |data|)
    {
      hide *;
      LookedParts(end);
      ChainedParts(end, strstart + 1 - insert);
      SizedParts();
      ghost var from := |data| - end + strstart + 1;
      EnteredInNone(ins, from, |data|);
      var maxInsert := strstart + lookahead - MIN_MATCH;
      lookahead := lookahead - (prevLength - 1);
      prevLength := prevLength - 2;
      while true
        invariant prevLength >= 1 && end == strstart + 1 + prevLength + lookahead && insert <= strstart
        invariant Chained(end, strstart + 1 - insert) && (strstart <= maxInsert ==> insert == 0 && Rolled(strstart + 1))
        invariant lookahead == old(lookahead - (prevLength - 1))
        invariant old(ins) <= ins && EnteredIn(ins, from, |data| - end + strstart + 1, |data|)
        invariant strstart + prevLength + 1 == old(strstart - 1 + prevLength)
        decreases prevLength
      {
        strstart := strstart + 1;
        EnteredInMore(ins, from, |data| - end + strstart, |data|);
        if strstart <= maxInsert {
          var hashHead := InsertString(strstart, end, strstart);
        } else {
          ChainedLater(end, strstart - insert, strstart + 1 - insert);
        }
        prevLength := prevLength - 1;
        if prevLength == 0 { break; }
      }
      strstart := strstart + 1;
    }

    /** deflate_slow takes the match of the step before. */
    method SlowMatch(ghost end: nat) returns (bflush: bool)
      requires Looked(end) && Buffers() && Places() && matchAvailable && lastLit + 1 < litBufsize
      requires prevLength >= 3 && Repeats(data, Base() + prevMatch, told, prevLength, Reach())
      modifies this`insH, this`own, this`ins, this`matchLength, this`matchAvailable, this`prevLength, this`lookahead,
        this`strstart,
               this`lastLit, this`tokens, this`told, head, prev, dBuf, lBuf
      ensures Top() && (bflush <==> lastLit + 1 == litBufsize) && lastLit < litBufsize && lookahead < old(lookahead) &&
        lastLit > 0 && !matchAvailable
      ensures tokens == old(tokens) + [T.Copy(old(prevLength), old(strstart - 1 - prevMatch))] && old(ins) <= ins
      ensures matchLength == 2
      ensures EnteredIn(ins, |data| - old(lookahead) + 1, |data| - old(lookahead) - 1 + old(prevLength), |data|)
    {
      hide *;
      LookedParts(end);
      ChainedParts(end, strstart + 1 - insert);
      SizedParts();
      PlacesParts();
      RepeatsParts(data, Base() + prevMatch, told, prevLength, Reach());
      bflush := TallyDist(strstart - 1 - prevMatch, prevLength - MIN_MATCH, Base() + prevMatch);
      PassMatch(end);
      matchAvailable := false;
      matchLength := MIN_MATCH - 1;
      BaseIs();
      PlacesIntro();
      WaitingIs();
      RolledIs(strstart);
      SettledIs();
      MidIntro();
      TopIntro();
    }

    /** The search at the start of a step of deflate_slow, and the matches that are not worth it. */
    method SlowSearch(hashHead: int, ghost end: nat, ghost st: Step)
      requires Looked(end) && Places() && strstart + 262 <= 2 * wsize && 2 <= prevLength
      requires hashHead != 0 ==> lookahead >= 3 && Candidate(end, hashHead)
      requires st.at == |data| - lookahead && st.ahead == lookahead && st.base == Base() && st.before == prevLength
      requires st.ahead >= 3 ==> HeadFor(Policy(), data, st.ins, st.base, st.at, hashHead)
      modifies this`matchLength, this`matchStart
      ensures matchLength >= 2 && Looking(Policy(), data, st.(len := matchLength, found := Base() + matchStart))
      ensures matchLength >= 3 && matchLength > prevLength ==>
        Repeats(data, Base() + matchStart, |data| - lookahead, matchLength, Reach())
    {
      hide *;
      LookedParts(end);
      ChainedParts(end, strstart + 1 - insert);
      SizedParts();
      PolicyIs();
      BaseIs();
      matchLength := MIN_MATCH - 1;
      ghost var len0 := matchLength;
      if hashHead != 0 && prevLength < config.maxLazy && strstart - hashHead <= wsize - MIN_LOOKAHEAD {
        ghost var seen := Search(hashHead, end);
        len0 := matchLength;
        if matchLength <= 5 && (strategy.Filtered? || (matchLength == MIN_MATCH && strstart - matchStart > 4096)) {
          matchLength := MIN_MATCH - 1;
        }
      }
      SlowRule(Policy(), data, st.(len := matchLength, found := Base() + matchStart), hashHead, len0,
        Base() + matchStart);
    }

    /** The byte of the step before is a literal after all; the flush, if it is due, comes before strstart moves. */
    method SlowLiteral(ghost end: nat)
      requires Looked(end) && Buffers() && Places() && matchAvailable && lastLit + 1 < litBufsize && lookahead > 0 &&
        matchLength >= 2
      requires matchLength >= 3 ==>
        Repeats(data, Base() + matchStart, |data| - lookahead, matchLength, Reach()) && found == Base() + matchStart
      modifies this`lookahead, this`strstart, this`lastLit, this`tokens, this`told, this`done, this`flushed, this`short,
        this`blockStart, dBuf, lBuf
      ensures short == old(short)
      ensures Top() && lastLit + 1 < litBufsize && lookahead < old(lookahead) && old(done) <= done
      ensures 1 <= strstart - 1 <= window.Length && tokens == old(tokens) + [T.Literal(window[strstart - 2])]
    {
      hide *;
      LookedParts(end);
      ChainedParts(end, strstart + 1 - insert);
      SizedParts();
      PlacesParts();
      BaseIs();
      HeldAt(window[..], data, end, strstart - 1);
      TellOne(end, window[strstart - 1]);
      strstart := strstart + 1;
      lookahead := lookahead - 1;
      BaseIs();
      Settle(end);
    }

    /** A byte is told as a literal, and the block flushed if it is full. */
    method TellOne(ghost end: nat, c: int)
      requires Buffers() && Chained(end, strstart + 1 - insert) && lastLit + 1 < litBufsize && litBufsize >= 2
      requires told < |data| && c == data[told] && strstart <= end && told + 1 == |data| - end + strstart &&
        blockStart == flushed - (|data| - end)
      modifies this`lastLit, this`tokens, this`told, this`done, this`flushed, this`short, this`blockStart, dBuf, lBuf
      ensures Buffers() && told == old(told) + 1 && lastLit + 1 < litBufsize && old(done) <= done && short == old(short)
      ensures tokens == old(tokens) + [T.Literal(c)] && blockStart == flushed - (|data| - end)
      ensures Chained(end, strstart + 1 - insert) && window[..] == old(window[..])
    {
      hide *;
      ChainedParts(end, strstart + 1 - insert);
      SizedParts();
      ghost var w := window[..];
      var bflush := TallyLit(c);
      assert window[..] == w;
      if bflush { FlushBlockOnly(end, strstart + 1 - insert); }
    }

    /** After a step that moved by one byte, with that byte still to be told. */
    lemma Settle(end: nat)
      requires end == strstart + lookahead && Chained(end, strstart - insert) && insert <= 2 && insert < strstart &&
        matchAvailable
      requires Buffers() && func.Slow? && matchLength >= 2 && told == |data| - lookahead - 1 &&
        blockStart == flushed - (|data| - end)
      requires lookahead >= 2 ==> insert == 0 && Rolled(strstart)
      requires matchLength >= 3 ==>
        Repeats(data, Base() + matchStart, told, matchLength, Reach()) && found == Base() + matchStart
      ensures Top()
    {
      hide *;
      ChainedParts(end, strstart - insert);
      SizedParts();
      BaseIs();
      PlacesIntro();
      WaitingIs();
      RolledIs(strstart);
      SettledIs();
      MidIntro();
      TopIntro();
    }

    /** There is nothing to tell yet: the next step decides. */
    method Defer(ghost end: nat)
      requires Looked(end) && Buffers() && Places() && !matchAvailable && func.Slow? && lookahead > 0 &&
        matchLength >= 2
      requires matchLength >= 3 ==>
        Repeats(data, Base() + matchStart, |data| - lookahead, matchLength, Reach()) && found == Base() + matchStart
      modifies this`lookahead, this`strstart, this`matchAvailable
      ensures Top() && lookahead < old(lookahead) && matchAvailable
    {
      hide *;
      LookedParts(end);
      PlacesParts();
      matchAvailable := true;
      strstart := strstart + 1;
      lookahead := lookahead - 1;
      BaseIs();
      Settle(end);
    }

    /** The first half of a turn of the loop in deflate_slow: what the step before found, and what this one finds. */
    method SlowLook(ghost end: nat) returns (ghost st: Step)
      requires Top() && func.Slow? && lookahead > 0 && strstart + 262 <= 2 * wsize && end == strstart + lookahead
      modifies this`insH, this`own, this`ins, this`matchLength, this`matchStart, this`prevLength, this`prevMatch,
        this`found,
        head, prev
      ensures Looked(end) && Buffers() && Places() && MIN_MATCH == 3 && 2 <= matchLength && lastLit == old(lastLit)
      ensures prevLength >= 3 ==> matchAvailable && Repeats(data, Base() + prevMatch, told, prevLength, Reach())
      ensures matchLength >= 3 && matchLength > prevLength ==>
        Repeats(data, Base() + matchStart, |data| - lookahead, matchLength, Reach())
      ensures prevLength == old(matchLength) && old(ins) <= ins && (lookahead >= 3 ==> |data| - lookahead in ins)
      ensures (prevLength >= 3 ==> old(found) == Base() + prevMatch) && found == Base() + matchStart
      ensures |data| - lookahead >= 0 && Looking(Policy(), data, st)
      ensures st == Step(|data| - lookahead, lookahead, Base(), old(ins), ins, prevLength, matchLength, matchAvailable,
        |tokens|, |tokens|, old(found), found)
    {
      hide *;
      TopParts();
      SizedParts();
      PlacesParts();
      WaitingIs();
      BaseIs();
      ghost var ins0 := ins;
      var hashHead := FindString();
      prevLength, prevMatch := matchLength, matchStart;
      SlowPlaces();
      st := Step(|data| - lookahead, lookahead, Base(), ins0, ins, prevLength, 2, matchAvailable, |tokens|, |tokens|,
        found, 0);
      SlowSearch(hashHead, end, st);
      found := Base() + matchStart;
      st := st.(len := matchLength, found := found);
    }

    /** One turn of the loop in deflate_slow. Whether it is over is for the caller to say: after a match,
        if the block is full; after a literal, if there is no room for output. What it tells is logged. */
    method SlowStep() returns (bflush: bool, literal: bool, ghost st: Step)
      requires Top() && func.Slow? && lookahead > 0 && strstart + 262 <= 2 * wsize && lastLit + 1 < litBufsize && Log()
      modifies this`insH, this`own, this`ins, this`matchLength, this`matchStart, this`matchAvailable, this`prevLength,
        this`prevMatch, this`found, this`lookahead, this`strstart, this`lastLit, this`tokens, this`told, this`done,
        this`flushed, this`short,
        this`blockStart, this`steps, head, prev, dBuf, lBuf
      ensures Top() && (bflush <==> lastLit + 1 == litBufsize) && lastLit < litBufsize && lookahead < old(lookahead) &&
        (bflush ==> !matchAvailable && lastLit > 0)
      ensures old(done) <= done && short == old(short)
      ensures old(ins) <= ins && Log() && old(tokens) <= tokens && steps == old(steps) + [st]
      ensures st.at == |data| - old(lookahead) && st.ahead == old(lookahead) && st.base == old(Base()) &&
        st.ins == old(ins) && st.before == old(matchLength) && st.waiting == old(matchAvailable) &&
        Lazy(Policy(), data, tokens[|old(tokens)|..], st)
    {
      hide *;
      ghost var end, tokens0, len0, waiting0, found0 :=
        strstart + lookahead, tokens, matchLength, matchAvailable, found;
      LogIs();
      PolicyIs();
      BaseIs();
      st := SlowLook(end);
      bflush, literal := SlowTell(end);
      ghost var ts := tokens[|tokens0|..];
      st := LogSlow(st, tokens0, ts, len0, waiting0, found0);
    }

    /** The second half: the match of the step before, or a byte, or nothing is told. */
    method SlowTell(ghost end: nat) returns (bflush: bool, literal: bool)
      requires Looked(end) && Buffers() && Places() && func.Slow? && lastLit + 1 < litBufsize && lookahead > 0
      requires matchLength >= 2 && MIN_MATCH == 3
      requires prevLength >= 3 ==> matchAvailable && Repeats(data, Base() + prevMatch, told, prevLength, Reach())
      requires matchLength >= 3 && matchLength > prevLength ==>
        Repeats(data, Base() + matchStart, |data| - lookahead, matchLength, Reach()) && found == Base() + matchStart
      modifies this`insH, this`own, this`ins, this`matchLength, this`matchAvailable, this`prevLength, this`lookahead,
        this`strstart, this`lastLit, this`tokens, this`told, this`done, this`flushed, this`short, this`blockStart, head,
        prev, dBuf, lBuf
      ensures Top() && (bflush <==> lastLit + 1 == litBufsize) && lastLit < litBufsize && lookahead < old(lookahead) &&
        (bflush ==> !matchAvailable && lastLit > 0)
      ensures old(done) <= done && short == old(short) && old(ins) <= ins && old(tokens) <= tokens
      ensures old(prevLength >= 3 && matchLength <= prevLength) ==>
        tokens == old(tokens) + [T.Copy(old(prevLength), old(|data| - lookahead - 1 - (Base() + prevMatch)))] &&
        matchLength == 2 &&
        !matchAvailable &&
        EnteredIn(ins, |data| - old(lookahead) + 1, |data| - old(lookahead) - 1 + old(prevLength), |data|)
      ensures !old(prevLength >= 3 && matchLength <= prevLength) ==> matchLength == old(matchLength) && matchAvailable
      ensures !old(prevLength >= 3 && matchLength <= prevLength) && old(matchAvailable) ==>
        |tokens| == |old(tokens)| + 1 && tokens[|old(tokens)|].Literal?
      ensures !old(prevLength >= 3 && matchLength <= prevLength) && !old(matchAvailable) ==> tokens == old(tokens)
    {
      hide *;
      BaseIs();
      bflush, literal := false, false;
      if prevLength >= MIN_MATCH && matchLength <= prevLength {
        bflush := SlowMatch(end);
      } else if matchAvailable {
        SlowLiteral(end);
        literal := true;
      } else {
        Defer(end);
      }
    }

    /** The step of deflate_slow just made is logged. */
    ghost method LogSlow(st0: Step, tokens0: seq<T.Token>, ts: seq<T.Token>, len0: nat, waiting0: bool, found0: int)
        returns (st: Step)
      requires LogOf(Policy(), data, tokens0, steps, epoch, st0.ins, len0, waiting0, found0) &&
        Looking(Policy(), data, st0)
      requires func.Slow? && tokens == tokens0 + ts && st0.first == |tokens0| && st0.at + st0.ahead == |data|
      requires st0.prior == found0 && st0.found == found && st0.before == len0 && st0.waiting == waiting0 &&
        st0.ins <= ins && st0.ahead > 0
      requires st0.ahead >= 3 ==> st0.at in ins
      requires st0.before >= 3 && st0.len <= st0.before ==>
        |ts| == 1 && ts[0] == T.Copy(st0.before, st0.at - 1 - st0.prior) &&
        EnteredIn(ins, st0.at + 1, st0.at - 1 + st0.before, |data|) && matchLength == 2 && !matchAvailable
      requires !(st0.before >= 3 && st0.len <= st0.before) ==> matchLength == st0.len && matchAvailable
      requires !(st0.before >= 3 && st0.len <= st0.before) ==>
        if waiting0 then |ts| == 1 && ts[0].Literal? else ts == []
      modifies this`steps
      ensures Log() && steps == old(steps) + [st]
      ensures st == st0.(after := ins, last := |tokens|) && Lazy(Policy(), data, ts, st)
    {
      hide *;
      PolicyIs();
      st := st0.(after := ins, last := |tokens|);
      TakenIs(st);
      LookingSame(Policy(), data, st0, st);
      if st.before >= 3 && st.len <= st.before { EnteredInOne(ins, st.at, st.at - 1 + st.before, |data|); }
      LazyRule(Policy(), data, ts, st);
      RuleLazy(Policy(), data, ts, st);
      LogMore(Policy(), data, tokens0, steps, epoch, st.ins, len0, waiting0, found0, ts, st, matchLength,
        matchAvailable, found);
      steps := steps + [st];
      LogIs();
    }

    lemma SlowPlaces()
      requires func.Slow? && blockStart == flushed - Base() && insert <= 2 && insert <= strstart
      requires told == |data| - lookahead - (if matchAvailable then 1 else 0) && (matchAvailable ==> strstart >= 1)
      ensures Places()
    {
    }

    /** The run of the byte before strstart, for deflate_rle. */
    method RunAhead() returns (n: nat)
      requires Top() && lookahead >= 3 && strstart > 0 && strstart + 258 < 2 * wsize
      ensures 1 <= |data| - lookahead &&
        (n > 0 ==> 3 <= n <= lookahead && RunOf(data, |data| - lookahead, lookahead, n))
      ensures n > 0 ==> Repeats(data, |data| - lookahead - 1, |data| - lookahead, n, Reach())
      ensures n > 0 <==> Thrice(data, |data| - lookahead)
    {
      hide *;
      TopParts();
      SizedParts();
      ghost var end, w := strstart + lookahead, window[..];
      ChainedParts(end, strstart - insert);
      ThriceHeld(w, data, end, strstart);
      var p := window[strstart - 1];
      if p == window[strstart] && p == window[strstart + 1] && p == window[strstart + 2] {
        RunStart(w, strstart - 1, p);
        var scan := CompareRun(window, strstart, p);
        n := MAX_MATCH - (strstart + MAX_MATCH - scan);
        if n > lookahead { n := lookahead; }
        RunRepeats(w, data, end, strstart, scan, p, n, Reach());
        RunHeld(w, data, end, strstart, scan, p, n);
      } else {
        n := 0;
      }
    }

    /** deflate_rle takes a run. */
    method RleMatch(n: nat) returns (bflush: bool)
      requires Top() && func.RunLength? && n <= lookahead && 3 <= n && lastLit + 1 < litBufsize && !matchAvailable
      requires Repeats(data, |data| - lookahead - 1, |data| - lookahead, n, Reach())
      modifies this`matchLength, this`lookahead, this`strstart, this`lastLit, this`tokens, this`told, dBuf, lBuf
      ensures Top() && (bflush <==> lastLit + 1 == litBufsize) && lastLit < litBufsize && lookahead < old(lookahead) &&
        lastLit > 0 && tokens == old(tokens) + [T.Copy(n, 1)]
    {
      hide *;
      TopParts();
      SizedParts();
      PlacesParts();
      SettledIs();
      ghost var end := strstart + lookahead;
      bflush := TallyDist(1, n - MIN_MATCH, |data| - lookahead - 1);
      ChainedLater(end, strstart - insert, strstart + n - insert);
      lookahead := lookahead - n;
      strstart := strstart + n;
      matchLength := 0;
      BaseIs();
      PlacesIntro();
      WaitingIs();
      SettledIs();
      MidIntro();
      TopIntro();
    }

    /** One turn of the loop in deflate_rle; what it tells is logged. */
    method RleStep() returns (bflush: bool, ghost st: Step)
      requires Top() && func.RunLength? && lookahead > 0 && strstart + 258 < 2 * wsize && lastLit + 1 < litBufsize
      requires Log()
      modifies this`matchLength, this`lookahead, this`strstart, this`lastLit, this`tokens, this`told, this`steps, dBuf,
        lBuf
      ensures Top() && (bflush <==> lastLit + 1 == litBufsize) && lastLit < litBufsize && lookahead < old(lookahead) &&
        lastLit > 0
      ensures Log() && |tokens| == |old(tokens)| + 1 && steps == old(steps) + [st]
      ensures st.at == |data| - old(lookahead) && st.ahead == old(lookahead) && st.base == old(Base()) &&
        Repetition(data, tokens[|tokens| - 1], st)
    {
      hide *;
      TopParts();
      SizedParts();
      LogIs();
      PolicyIs();
      BaseIs();
      ghost var tokens0, len0, waiting0 := tokens, matchLength, matchAvailable;
      ghost var at, base, ahead := |data| - lookahead, Base(), lookahead;
      var n := 0;
      if lookahead >= MIN_MATCH && strstart > 0 { n := RunAhead(); }
      NotWaiting();
      PlacesParts();
      ghost var end := strstart + lookahead;
      ChainedParts(end, strstart - insert);
      if n >= MIN_MATCH {
        bflush := RleMatch(n);
      } else {
        SettledIs();
        ChainedLater(end, strstart - insert, strstart + 1 - insert);
        matchLength := n;
        bflush := Literal(end);
      }
      ghost var t := tokens[|tokens0|];
      st := Step(at, ahead, base, ins, ins, 0, 0, false, |tokens0|, |tokens0| + 1, 0, 0);
      RunRule(data, t, st, n);
      RuleOne(Policy(), data, t, st);
      LogOne(st, tokens0, t, len0, waiting0, found);
    }

    /** One turn of the loop in deflate_huff. */
    method HuffmanStep() returns (bflush: bool)
      requires Top() && func.Huffman? && lookahead > 0 && lastLit + 1 < litBufsize && Log()
      modifies this`matchLength, this`lookahead, this`strstart, this`lastLit, this`tokens, this`told, this`steps, dBuf,
        lBuf
      ensures Top() && (bflush <==> lastLit + 1 == litBufsize) && lastLit < litBufsize && lookahead < old(lookahead) &&
        lastLit > 0
      ensures Log() && |steps| == |old(steps)| + 1 && old(steps) <= steps
      ensures |tokens| == |old(tokens)| + 1 && tokens[|tokens| - 1].Literal?
    {
      hide *;
      TopParts();
      SizedParts();
      PlacesParts();
      SettledIs();
      LogIs();
      PolicyIs();
      ghost var tokens0, len0, waiting0 := tokens, matchLength, matchAvailable;
      ghost var at, ahead := |data| - lookahead, lookahead;
      ghost var end := strstart + lookahead;
      ChainedParts(end, strstart - insert);
      ChainedLater(end, strstart - insert, strstart + 1 - insert);
      matchLength := 0;
      bflush := Literal(end);
      ghost var t := tokens[|tokens0|];
      ghost var st := Step(at, ahead, 0, ins, ins, 0, 0, false, |tokens0|, |tokens0| + 1, 0, 0);
      RuleOne(Policy(), data, t, st);
      LogOne(st, tokens0, t, len0, waiting0, found);
    }

    /* ---------- the loops ---------- */

    /** Between two turns, and between two calls. */
    ghost predicate Turning()
      reads this`insH, this`own, this`ins, this`data, this`tokens, this`told, this`done, this`flushed, this`lastLit,
        this`strstart, this`lookahead,
            this`blockStart, this`insert, this`matchAvailable, this`prevLength, this`matchLength, this`matchStart,
            this`found,
            this`input,
            window, head, prev, dBuf, lBuf
    {
      Top() && AreBytes(input) && lastLit + 1 < litBufsize
    }

    lemma TurningParts()
      requires Turning()
      ensures Top() && AreBytes(input) && lastLit + 1 < litBufsize && MIN_LOOKAHEAD == 262 && MAX_MATCH == 258
    {
      hide Top;
    }

    lemma TurningIntro()
      requires Top() && AreBytes(input) && lastLit + 1 < litBufsize
      ensures Turning()
    {
      hide Top;
    }

    /** Everything given has been read, told and flushed. */
    ghost predicate AllFlushed()
      reads this`input, this`lookahead, this`told, this`flushed, this`data, this`matchAvailable, this`tokens, this`done
    {
      input == [] && lookahead == 0 && !matchAvailable && told == flushed == |data| && done == tokens
    }

    lemma AllFlushedIs()
      ensures AllFlushed() <==>
        input == [] && lookahead == 0 && !matchAvailable && told == flushed == |data| && done == tokens
    {
    }

    /** What the way a matcher ended says. */
    ghost predicate Ended(st: BlockState, flush: Flush, ample: bool)
      reads this`input, this`lookahead, this`told, this`flushed, this`data, this`matchAvailable, this`tokens, this`done
    {
      (!st.NeedMore? ==> AllFlushed() && !flush.NoFlush?) && (st.FinishStarted? || st.FinishDone? ==> flush.Finish?) &&
      (st.BlockDone? ==> !flush.Finish?) && (ample ==> !st.FinishStarted?) &&
      (ample && st.NeedMore? ==> flush.NoFlush? && input == [] && lookahead < 262)
    }

    lemma EndedIs(st: BlockState, flush: Flush, ample: bool)
      requires !st.NeedMore? ==> AllFlushed() && !flush.NoFlush?
      requires (st.FinishStarted? || st.FinishDone? ==> flush.Finish?) && (st.BlockDone? ==> !flush.Finish?)
      requires ample ==> !st.FinishStarted? && (st.NeedMore? ==> flush.NoFlush? && input == [] && lookahead < 262)
      ensures Ended(st, flush, ample)
    {
      hide AllFlushed;
    }

    /** FLUSH_BLOCK between two turns, up to the look at the room for output. */
    method FlushTop()
      requires Top() && !matchAvailable
      modifies this`blockStart, this`lastLit, this`done, this`flushed, this`short
      ensures short == old(short) + if old(lastLit) + 1 == litBufsize then 0 else 1
      ensures Top() && lastLit == 0 && litBufsize >= 2 && flushed == told && done == tokens && old(done) <= done
    {
      hide *;
      TopParts();
      SizedParts();
      PlacesParts();
      WaitingIs();
      BaseIs();
      FlushBlockOnly(strstart + lookahead, strstart - insert);
      PlacesIntro();
      WaitingIs();
      MidIntro();
      TopIntro();
    }

    /** After the loop: the last strings are left to insert when more input comes. */
    method LeaveRest(n: nat)
      requires Top() && lookahead == 0 && n <= 2 && n <= strstart
      modifies this`insert
      ensures Top()
    {
      hide *;
      TopParts();
      SizedParts();
      PlacesParts();
      ghost var end := strstart + lookahead;
      ChainedParts(end, strstart - insert);
      Earlier(Viewed(end), strstart - insert);
      Later(Viewed(end), Viewed(end).end - 2, strstart - n);
      insert := n;
      ViewedIs(end);
      ChainedIntro(end, strstart - n);
      PlacesIntro();
      SettledIs();
      MidIntro();
      TopIntro();
    }

    /** The end of every matcher, when nothing is left to match. */
    method EndBlock(flush: Flush, ample: bool) returns (st: BlockState)
      requires Top() && AreBytes(input) && lookahead == 0 && input == [] && !matchAvailable && !flush.NoFlush?
      modifies this`blockStart, this`lastLit, this`done, this`flushed, this`short
      ensures short <= old(short) + 1
      ensures Turning() && old(done) <= done && Ended(st, flush, ample)
    {
      hide *;
      TopParts();
      SizedParts();
      PlacesParts();
      BuffersParts();
      TalliedFlushed(data, tokens, told, done, flushed, dBuf[..], lBuf[..], lastLit, Reach());
      TalliedPrefix(data, tokens, told, done, flushed, dBuf[..], lBuf[..], lastLit, Reach());
      if flush.Finish? {
        FlushTop();
        var full := OutOfRoom(ample);
        st := if full then FinishStarted else FinishDone;
      } else if lastLit > 0 {
        FlushTop();
        var full := OutOfRoom(ample);
        st := if full then NeedMore else BlockDone;
      } else {
        st := BlockDone;
      }
      TurningIntro();
      AllFlushedIs();
      EndedIs(st, flush, ample);
    }

    /** fill_window, which leaves the steps made as they are. */
    method Refill()
      requires Top() && AreBytes(input) && lookahead < MIN_LOOKAHEAD && Log()
      modifies window, head, prev, this`input, this`data, this`lookahead, this`strstart, this`matchStart,
        this`blockStart, this`own, this`ins, this`insH, this`insert, this`highWater
      ensures Top() && AreBytes(input) && data + input == old(data + input) && Log() && old(ins) <= ins
      ensures lookahead >= MIN_LOOKAHEAD || input == []
      ensures strstart + MIN_LOOKAHEAD <= 2 * wsize && lookahead >= old(lookahead)
      ensures |input| + lookahead == old(|input| + lookahead)
    {
      hide *;
      LogIs();
      ghost var data0, ins0 := data, ins;
      FillWindow();
      LogStill(data0, ins0);
    }

    method DeflateFast(flush: Flush, ample: bool) returns (st: BlockState)
      requires Turning() && Log() && func.Fast?
      modifies this`input, this`data, this`insert, this`blockStart, this`highWater, this`insH, this`own, this`ins,
        this`matchLength,
               this`matchStart, this`matchAvailable, this`prevLength, this`prevMatch, this`found, this`lookahead,
               this`strstart,
               this`lastLit,
               this`tokens, this`told, this`done, this`flushed, this`short, this`steps, window, head, prev, dBuf, lBuf
      ensures Turning() && data + input == old(data + input) && old(done) <= done && Ended(st, flush, ample)
      ensures Log() && old(steps) <= steps && old(ins) <= ins
      ensures short <= old(short) + 1 && (flush.NoFlush? ==> short == old(short))
    {
      hide *;
      while true
        invariant Turning() && data + input == old(data + input) && old(done) <= done
        invariant Log() && old(steps) <= steps && old(ins) <= ins && short == old(short)
        decreases |input| + lookahead
      {
        TurningParts();
        if lookahead < MIN_LOOKAHEAD {
          Refill();
          if lookahead < MIN_LOOKAHEAD && flush.NoFlush? {
            TurningIntro();
            EndedIs(NeedMore, flush, ample);
            return NeedMore;
          }
          if lookahead == 0 { break; }
        }
        RoomAhead();
        NotWaiting();
        var bflush;
        ghost var st';
        bflush, st' := FastStep();
        NotWaiting();
        if bflush {
          FlushTop();
          var full := OutOfRoom(ample);
          if full {
            TurningIntro();
            EndedIs(NeedMore, flush, ample);
            return NeedMore;
          }
        }
        TurningIntro();
      }
      NotWaiting();
      LeaveRest(if strstart < MIN_MATCH - 1 then strstart else MIN_MATCH - 1);
      st := EndBlock(flush, ample);
    }

    lemma NotWaiting()
      requires Top() && !func.Slow?
      ensures !matchAvailable && MIN_MATCH == 3 && Sized() && litBufsize >= 2
    {
      hide *;
      TopParts();
      SizedParts();
      PlacesParts();
    }

    lemma RoomAhead()
      requires Top()
      ensures strstart + lookahead <= 2 * wsize
    {
      hide *;
      TopParts();
      ChainedParts(strstart + lookahead, strstart - insert);
    }

    /** deflate_slow, after its loop: the byte of the last step is a literal. */
    method LastLiteral()
      requires Top() && lookahead == 0 && matchAvailable && lastLit + 1 < litBufsize && Log() && func.Slow?
      modifies this`matchAvailable, this`lastLit, this`tokens, this`told, this`steps, dBuf, lBuf
      ensures Top() && !matchAvailable && Log() && old(steps) <= steps
    {
      hide *;
      TopParts();
      SizedParts();
      PlacesParts();
      WaitingIs();
      LogIs();
      PolicyIs();
      if matchLength >= 3 { RepeatsParts(data, Base() + matchStart, told, matchLength, Reach()); }
      BaseIs();
      SettledIs();
      ghost var end, tokens0 := strstart + lookahead, tokens;
      ChainedParts(end, strstart - insert);
      HeldAt(window[..], data, end, strstart - 1);
      var bflush := TallyLit(window[strstart - 1]);
      matchAvailable := false;
      ghost var ts := [T.Literal(window[strstart - 1])];
      ghost var st := Step(|data|, 0, Base(), ins, ins, matchLength, 2, true, |tokens0|, |tokens0| + 1, 0, found);
      NothingAhead(Policy(), data, st);
      TakenIs(st);
      LazyRule(Policy(), data, ts, st);
      LogMore(Policy(), data, tokens0, steps, epoch, ins, matchLength, true, found, ts, st, matchLength, false, found);
      steps := steps + [st];
      LogIs();
      PlacesIntro();
      WaitingIs();
      SettledIs();
      MidIntro();
      TopIntro();
    }

    method DeflateSlow(flush: Flush, ample: bool) returns (st: BlockState)
      requires Turning() && Log() && func.Slow?
      modifies this`input, this`data, this`insert, this`blockStart, this`highWater, this`insH, this`own, this`ins,
        this`matchLength,
               this`matchStart, this`matchAvailable, this`prevLength, this`prevMatch, this`found, this`lookahead,
               this`strstart,
               this`lastLit,
               this`tokens, this`told, this`done, this`flushed, this`short, this`steps, window, head, prev, dBuf, lBuf
      ensures Turning() && data + input == old(data + input) && old(done) <= done && Ended(st, flush, ample)
      ensures Log() && old(steps) <= steps && old(ins) <= ins
      ensures short <= old(short) + 1 && (flush.NoFlush? ==> short == old(short))
    {
      hide *;
      while true
        invariant Turning() && data + input == old(data + input) && old(done) <= done
        invariant Log() && old(steps) <= steps && old(ins) <= ins && short == old(short)
        decreases |input| + lookahead
      {
        TurningParts();
        if lookahead < MIN_LOOKAHEAD {
          Refill();
          if lookahead < MIN_LOOKAHEAD && flush.NoFlush? {
            TurningIntro();
            EndedIs(NeedMore, flush, ample);
            return NeedMore;
          }
          if lookahead == 0 { break; }
        }
        RoomAhead();
        var bflush, literal;
        ghost var st';
        bflush, literal, st' := SlowStep();
        var full := OutOfRoom(ample);
        if bflush {
          FlushTop();
          if full {
            TurningIntro();
            EndedIs(NeedMore, flush, ample);
            return NeedMore;
          }
        } else if literal && full {
          TurningIntro();
          EndedIs(NeedMore, flush, ample);
          return NeedMore;
        }
        TurningIntro();
      }
      st := EndSlow(flush, ample);
    }

    /** What follows the loop of deflate_slow. */
    method EndSlow(flush: Flush, ample: bool) returns (st: BlockState)
      requires Top() && AreBytes(input) && lookahead == 0 && input == [] && !flush.NoFlush? && lastLit + 1 < litBufsize
      requires func.Slow? && Log()
      modifies this`insert, this`blockStart, this`matchAvailable, this`lastLit, this`tokens, this`told, this`done,
        this`flushed, this`short, this`steps, dBuf, lBuf
      ensures short <= old(short) + 1
      ensures Turning() && old(done) <= done && Ended(st, flush, ample) && Log() && old(steps) <= steps
    {
      hide *;
      if matchAvailable { LastLiteral(); }
      TopParts();
      SizedParts();
      LeaveRest(if strstart < MIN_MATCH - 1 then strstart else MIN_MATCH - 1);
      st := EndBlock(flush, ample);
    }

    method DeflateRle(flush: Flush, ample: bool) returns (st: BlockState)
      requires Turning() && Log() && func.RunLength?
      modifies this`input, this`data, this`insert, this`blockStart, this`highWater, this`insH, this`own, this`ins,
        this`matchLength,
               this`matchStart, this`matchAvailable, this`prevLength, this`prevMatch, this`found, this`lookahead,
               this`strstart,
               this`lastLit,
               this`tokens, this`told, this`done, this`flushed, this`short, this`steps, window, head, prev, dBuf, lBuf
      ensures Turning() && data + input == old(data + input) && old(done) <= done && Ended(st, flush, ample)
      ensures Log() && old(steps) <= steps && old(ins) <= ins
      ensures short <= old(short) + 1 && (flush.NoFlush? ==> short == old(short))
    {
      hide *;
      while true
        invariant Turning() && data + input == old(data + input) && old(done) <= done
        invariant Log() && old(steps) <= steps && old(ins) <= ins && short == old(short)
        decreases |input| + lookahead
      {
        TurningParts();
        if lookahead <= MAX_MATCH {
          Refill();
          if lookahead <= MAX_MATCH && flush.NoFlush? {
            TurningIntro();
            EndedIs(NeedMore, flush, ample);
            return NeedMore;
          }
          if lookahead == 0 { break; }
        }
        RoomAhead();
        NotWaiting();
        var bflush;
        ghost var st';
        bflush, st' := RleStep();
        NotWaiting();
        if bflush {
          FlushTop();
          var full := OutOfRoom(ample);
          if full {
            TurningIntro();
            EndedIs(NeedMore, flush, ample);
            return NeedMore;
          }
        }
        TurningIntro();
      }
      NotWaiting();
      LeaveRest(0);
      st := EndBlock(flush, ample);
    }

    method DeflateHuff(flush: Flush, ample: bool) returns (st: BlockState)
      requires Turning() && Log() && func.Huffman?
      modifies this`input, this`data, this`insert, this`blockStart, this`highWater, this`insH, this`own, this`ins,
        this`matchLength,
               this`matchStart, this`matchAvailable, this`prevLength, this`prevMatch, this`found, this`lookahead,
               this`strstart,
               this`lastLit,
               this`tokens, this`told, this`done, this`flushed, this`short, this`steps, window, head, prev, dBuf, lBuf
      ensures Turning() && data + input == old(data + input) && old(done) <= done && Ended(st, flush, ample)
      ensures Log() && old(steps) <= steps && old(ins) <= ins
      ensures short <= old(short) + 1 && (flush.NoFlush? ==> short == old(short))
    {
      hide *;
      while true
        invariant Turning() && data + input == old(data + input) && old(done) <= done
        invariant Log() && old(steps) <= steps && old(ins) <= ins && short == old(short)
        decreases |input| + lookahead
      {
        TurningParts();
        if lookahead == 0 {
          Refill();
          if lookahead == 0 {
            if flush.NoFlush? {
              TurningIntro();
              EndedIs(NeedMore, flush, ample);
              return NeedMore;
            }
            break;
          }
        }
        NotWaiting();
        var bflush := HuffmanStep();
        NotWaiting();
        if bflush {
          FlushTop();
          var full := OutOfRoom(ample);
          if full {
            TurningIntro();
            EndedIs(NeedMore, flush, ample);
            return NeedMore;
          }
        }
        TurningIntro();
      }
      NotWaiting();
      LeaveRest(0);
      st := EndBlock(flush, ample);
    }

    /* ---------- deflate ---------- */

    /** CLEAR_HASH */
    method ClearHash()
      requires Top() && Log()
      modifies head, this`ins, this`epoch
      ensures Log() && ins == {} && Top() && forall h :: 0 <= h < head.Length ==> head[h] == 0
    {
      hide *;
      LogIs();
      TopParts();
      SizedParts();
      ghost var end, top := strstart + lookahead, strstart - insert;
      ChainedParts(end, top);
      ghost var v := Viewed(end);
      ghost var w, p := window[..], prev[..];
      head[head.Length - 1] := 0;
      var i := 0;
      while i < head.Length - 1
        invariant 0 <= i <= head.Length - 1 && head[head.Length - 1] == 0 && forall h :: 0 <= h < i ==> head[h] == 0
        invariant ins == old(ins) && epoch == old(epoch)
      {
        head[i] := 0;
        i := i + 1;
      }
      assert window[..] == w && prev[..] == p;
      Clear(v, top, head[..]);
      HeadIs(v, head[..]);
      ChainsShape(v.(head := head[..]), top);
      NewestNone(v.(head := head[..]), |data| - end);
      LogIs();
      LogAfresh(Policy(), data, tokens, steps, epoch, ins, matchLength, matchAvailable, found);
      ins, epoch := {}, |steps|;
      LogIs();
      ChainedIntro(end, top);
      SettledIs();
      MidIntro();
      TopIntro();
    }

    /** After a full flush that took all the input the window starts again at its beginning. */
    method Restart()
      requires Top() && AllFlushed() && lastLit + 1 < litBufsize && ins == {} && forall h ::
        0 <= h < head.Length ==> head[h] == 0
      modifies this`strstart, this`blockStart, this`insert, this`own
      ensures Top()
    {
      hide *;
      TopParts();
      SizedParts();
      PlacesParts();
      WaitingIs();
      AllFlushedIs();
      ChainedParts(strstart + lookahead, strstart - insert);
      ghost var v := Viewed(strstart + lookahead);
      strstart, blockStart, insert := 0, 0, 0;
      own := BlankOwn(wsize);
      BlankIs(v, own);
      BlankChains(v.(end := 0, own := own));
      ChainsShape(v.(end := 0, own := own), 0);
      NewestNone(v.(end := 0, own := own), |data|);
      HeldNone(window[..], data);
      ChainedIntro(0, 0);
      BaseIs();
      PlacesIntro();
      WaitingIs();
      SettledIs();
      MidIntro();
      TopIntro();
    }

    /** Once the input is declared finished, all of it is told and flushed. */
    ghost predicate Over()
      reads this`finished, this`lookahead, this`told, this`flushed, this`data, this`matchAvailable, this`tokens,
        this`done
    {
      finished ==> lookahead == 0 && !matchAvailable && told == flushed == |data| && done == tokens
    }

    lemma OverIs()
      ensures Over() <==>
        (finished ==> lookahead == 0 && !matchAvailable && told == flushed == |data| && done == tokens)
    {
    }

    ghost predicate Valid()
      reads this, window, head, prev, dBuf, lBuf
    {
      Turning() && Over() && Log()
    }

    lemma ValidParts()
      requires Valid()
      ensures Turning() && Over() && Log()
    {
      hide Turning;
      hide Over;
      hide Log;
    }

    lemma ValidIntro()
      requires Turning() && Over() && Log()
      ensures Valid()
    {
      hide Turning;
      hide Over;
      hide Log;
    }

    /** deflateInit2, for levels from 1 on. A window of 256 bytes is made one of 512. */
    constructor (level: nat, wbits: nat, memLevel: nat, strategy: Strategy)
      requires 1 <= level <= 9 && 8 <= wbits <= 15 && 1 <= memLevel <= 9
      ensures Valid() && data == [] && input == [] && tokens == [] && done == [] && !finished
      ensures config == ConfigOf(level) && this.strategy == strategy && func == FuncOf(level, strategy)
      ensures head.Length == Pow2(memLevel + 7) && litBufsize == Pow2(memLevel + 6)
      ensures 3 * (hashShift as nat - 1) < memLevel + 7 <= 3 * (hashShift as nat)
      ensures steps == [] && ins == {} && epoch == 0
      ensures wsize == Pow2(if wbits == 8 then 9 else wbits)
      ensures fresh(window) && fresh(prev) && fresh(head) && fresh(dBuf) && fresh(lBuf)
    {
      hide *;
      var bits := if wbits == 8 then 9 else wbits;
      HashProper(memLevel);
      Powers(bits, memLevel);
      var w, b, m := Pow2(bits), Pow2(memLevel + 6), MaskOf(memLevel);
      wsize, hashMask, hashShift, litBufsize := w, m, ShiftOf(memLevel), b;
      ConfigIs(level);
      FuncIs(level, strategy);
      HashSizes(memLevel);
      config, this.strategy := CONFIGURATION[level], strategy;
      func := if strategy.HuffmanOnly? then Huffman else if strategy.Rle? then RunLength
        else if level <= 3 then Fast else Slow;
      var buffer := AllocateBytes(2 * w);
      window := buffer;
      prev := new int[w];
      head := new int[Size(m)](_ => 0);
      dBuf := new int[b];
      lBuf := new int[b];
      strstart, lookahead, insert, insH, matchLength, matchStart := 0, 0, 0, 0, 2, 0;
      prevLength, prevMatch, matchAvailable, blockStart, lastLit, highWater := 2, 0, false, 0, 0, 0;
      finished, lastFlush, input := false, 0, [];
      data, tokens, done, told, flushed := [], [], [], 0, 0;
      own := BlankOwn(w);
      ins, steps, epoch, short, found := {}, [], 0, 0, 0;
      new;
      SizedIntro();
      BlankSize(w);
      BlankValid();
    }

    /** Before any input, everything is as it should be. */
    lemma BlankValid()
      requires Sized() && AreBytes(window[..]) && (forall h :: 0 <= h < head.Length ==> head[h] == 0)
      requires own == BlankOwn(wsize) && |own| == wsize && ins == {} && steps == [] && epoch == 0 && found == 0
      requires strstart == lookahead == insert == 0 && matchLength == 2 && prevLength == 2 && !matchAvailable
      requires blockStart == 0 && lastLit == 0 && !finished && input == [] && data == [] && tokens == [] && done == []
      requires told == flushed == 0
      ensures Valid()
    {
      hide *;
      SizedParts();
      ViewedIs(0);
      ShapeIntro(Viewed(0));
      BlankIs(Viewed(0), own);
      BlankChains(Viewed(0));
      ChainsShape(Viewed(0), 0);
      NewestNone(Viewed(0), 0);
      HeldNone(window[..], []);
      ChainedIntro(0, 0);
      TalliedStart(dBuf[..], lBuf[..], Reach());
      BuffersIntro();
      BaseIs();
      PlacesIntro();
      WaitingIs();
      SettledIs();
      MidIntro();
      TopIntro();
      NoBytes();
      TurningIntro();
      LogNone(Policy());
      LogIs();
      OverIs();
      ValidIntro();
    }

    lemma SizedIntro()
      requires 512 <= wsize <= 32768 && Proper(hashMask, hashShift) && window.Length == 2 * wsize &&
        prev.Length == wsize
      requires head.Length == Size(hashMask) && dBuf.Length == lBuf.Length == litBufsize && litBufsize >= 2
      requires config.maxChain >= 4 && config.maxLazy <= 258
      requires window != prev && window != head && window != dBuf && window != lBuf && prev != head && prev != dBuf &&
        prev != lBuf
      requires head != dBuf && head != lBuf && dBuf != lBuf
      ensures Sized()
    {
    }

    /** The matcher for the level and the strategy. */
    method Compress(flush: Flush, ample: bool) returns (st: BlockState)
      requires Turning() && Log()
      modifies this`input, this`data, this`insert, this`blockStart, this`highWater, this`insH, this`own, this`ins,
        this`matchLength,
               this`matchStart, this`matchAvailable, this`prevLength, this`prevMatch, this`found, this`lookahead,
               this`strstart,
               this`lastLit,
               this`tokens, this`told, this`done, this`flushed, this`short, this`steps, window, head, prev, dBuf, lBuf
      ensures Turning() && data + input == old(data + input) && old(done) <= done && Ended(st, flush, ample)
      ensures Log() && old(steps) <= steps && old(ins) <= ins
      ensures short <= old(short) + 1 && (flush.NoFlush? ==> short == old(short))
    {
      hide *;
      match func
      case Fast => st := DeflateFast(flush, ample);
      case Slow => st := DeflateSlow(flush, ample);
      case RunLength => st := DeflateRle(flush, ample);
      case Huffman => st := DeflateHuff(flush, ample);
    }

    /** deflate, with more input for it, and with ample room for output or not. The tokens always tell what
        they cover exactly; nothing of the input is lost; blocks already flushed stay as they are; and when
        the end is reached all of the input has been told. */
    method Deflate(more: seq<int>, flush: Flush, ample: bool) returns (code: Code)
      requires Valid() && AreBytes(more)
      modifies this, window, head, prev, dBuf, lBuf
      ensures Valid() && data + input == old(data + input) + more && old(done) <= done
      ensures told <= |data| && Tells(data, tokens, told, wsize - MIN_LOOKAHEAD) && T.Coded(tokens) && done <= tokens
      ensures Logged(Policy(), data, tokens, steps) && Growing(steps, epoch, ins) && old(steps) <= steps
      ensures !flush.FullFlush? ==> epoch == old(epoch) && old(ins) <= ins
      ensures code.StreamError? <==> old(finished) && !flush.Finish?
      ensures code.StreamEnd? ==> flush.Finish? && input == [] && told == |data| && done == tokens
      ensures ample && code.BufError? && !old(finished) ==> Rank(Number(flush)) <= Rank(old(lastFlush))
      ensures code.BufError? || code.StreamError? ==> data == old(data) && tokens == old(tokens)
      ensures short <= old(short) + 1 && (flush.NoFlush? ==> short == old(short))
      ensures ample && flush.Finish? ==> code.StreamEnd? || code.BufError?
      ensures ample && code.Ok? ==> input == [] && |data| <= told + (if flush.NoFlush? then 262 else 0)
      ensures ample && code.BufError? ==>
        if old(finished) then old(input) + more != [] || !flush.Finish? else old(input) + more == [] && !flush.Finish?
    {
      hide *;
      ValidParts();
      TurningParts();
      OverIs();
      AppendBytes(input, more);
      AppendTwice(data, input, more);
      input := input + more;
      TurningIntro();
      ValidIntro();
      code := Run(flush, ample);
      Telling();
    }

    lemma Telling()
      requires Valid()
      ensures told <= |data| && Tells(data, tokens, told, wsize - MIN_LOOKAHEAD) && T.Coded(tokens) && done <= tokens
      ensures Logged(Policy(), data, tokens, steps) && Growing(steps, epoch, ins)
    {
      hide *;
      ValidParts();
      LogIs();
      LogParts(Policy(), data, tokens, steps, epoch, ins, matchLength, matchAvailable, found);
      TurningParts();
      TopParts();
      SizedParts();
      BuffersParts();
      TalliedFlushed(data, tokens, told, done, flushed, dBuf[..], lBuf[..], lastLit, Reach());
      TalliedPrefix(data, tokens, told, done, flushed, dBuf[..], lBuf[..], lastLit, Reach());
    }

    lemma ToldNear()
      requires Valid()
      ensures |data| <= told + lookahead + 1
    {
      hide *;
      ValidParts();
      TurningParts();
      TopParts();
      PlacesParts();
    }

    /** A new block is started, or the current one continued; whether deflate returns at once. */
    method Blocks(flush: Flush, ample: bool) returns (stop: bool)
      requires Valid() && !finished
      modifies this, window, head, prev, dBuf, lBuf
      ensures Valid() && data + input == old(data + input) && old(done) <= done
      ensures old(steps) <= steps && (!flush.FullFlush? ==> epoch == old(epoch) && old(ins) <= ins)
      ensures !stop ==> flush.Finish? && input == [] && told == |data| && done == tokens
      ensures short <= old(short) + 1 && (flush.NoFlush? ==> short == old(short))
      ensures ample && flush.Finish? ==> !stop
      ensures ample && stop ==> input == [] && |data| <= told + (if flush.NoFlush? then 262 else 0)
    {
      hide *;
      ValidParts();
      OverIs();
      stop := true;
      var st := Compress(flush, ample);
      EndedParts(st, flush, ample);
      AllFlushedIs();
      if st.FinishStarted? || st.FinishDone? { finished := true; }
      if st.NeedMore? || st.FinishStarted? {
        var full := OutOfRoom(ample);
        if full { lastFlush := -1; }
      } else if st.BlockDone? {
        if flush.FullFlush? { Forget(); }
        var full := OutOfRoom(ample);
        if full { lastFlush := -1; }
      } else {
        stop := false;
      }
      AllFlushedIs();
      OverIs();
      ValidIntro();
      ToldNear();
    }

    /** deflate, with the input in place. */
    method Run(flush: Flush, ample: bool) returns (code: Code)
      requires Valid()
      modifies this, window, head, prev, dBuf, lBuf
      ensures Valid() && data + input == old(data + input) && old(done) <= done
      ensures old(steps) <= steps && (!flush.FullFlush? ==> epoch == old(epoch) && old(ins) <= ins)
      ensures code.StreamError? <==> old(finished) && !flush.Finish?
      ensures code.StreamEnd? ==> flush.Finish? && input == [] && told == |data| && done == tokens
      ensures ample && code.BufError? && !old(finished) ==> Rank(Number(flush)) <= Rank(old(lastFlush))
      ensures code.BufError? || code.StreamError? ==> data == old(data) && tokens == old(tokens)
      ensures short <= old(short) + 1 && (flush.NoFlush? ==> short == old(short))
      ensures ample && flush.Finish? ==> code.StreamEnd? || code.BufError?
      ensures ample && code.Ok? ==> input == [] && |data| <= told + (if flush.NoFlush? then 262 else 0)
      ensures ample && code.BufError? ==>
        if old(finished) then old(input) != [] || !flush.Finish? else old(input) == [] && !flush.Finish?
    {
      hide *;
      ValidParts();
      OverIs();
      if finished && !flush.Finish? { return StreamError; }
      var full := OutOfRoom(ample);
      if full { return BufError; }
      var oldFlush := lastFlush;
      lastFlush := Number(flush);
      OverIs();
      ValidIntro();
      var pending: bool := *;
      if pending {
        full := OutOfRoom(ample);
        if full {
          lastFlush := -1;
          OverIs();
          ValidIntro();
          return Ok;
        }
      } else if input == [] && Rank(Number(flush)) <= Rank(oldFlush) && !flush.Finish? {
        return BufError;
      }
      if finished && input != [] { return BufError; }
      if input != [] || lookahead != 0 || (!flush.NoFlush? && !finished) {
        var stop := Blocks(flush, ample);
        if stop { return Ok; }
      } else {
        ToldNear();
      }
      if !flush.Finish? { return Ok; }
      var trailer := OutOfRoom(ample);
      code := if trailer then Ok else StreamEnd;
    }

    lemma EndedParts(st: BlockState, flush: Flush, ample: bool)
      requires Ended(st, flush, ample)
      ensures !st.NeedMore? ==> AllFlushed() && !flush.NoFlush?
      ensures (st.FinishStarted? || st.FinishDone? ==> flush.Finish?) && (st.BlockDone? ==> !flush.Finish?)
      ensures ample ==> !st.FinishStarted? && (st.NeedMore? ==> flush.NoFlush? && input == [] && lookahead < 262)
    {
      hide AllFlushed;
    }

    /** A full flush forgets the history. */
    method Forget()
      requires Turning() && AllFlushed() && Log()
      modifies this`strstart, this`blockStart, this`insert, this`own, this`ins, this`epoch, head
      ensures Turning() && AllFlushed() && Log()
    {
      hide *;
      TurningParts();
      AllFlushedIs();
      ClearHash();
      if lookahead == 0 { Restart(); }
      AllFlushedIs();
      TurningIntro();
    }
  }

  lemma AppendBytes(a: seq<int>, b: seq<int>)
    requires AreBytes(a) && AreBytes(b)
    ensures AreBytes(a + b)
  {
  }

  lemma NoBytes()
    ensures AreBytes([])
  {
  }

  lemma TalliedStart(dBuf: seq<int>, lBuf: seq<int>, reach: nat)
    requires |dBuf| == |lBuf| > 0
    ensures Tallied([], [], 0, [], 0, dBuf, lBuf, 0, reach)
  {
    TellsNothing([], reach);
    BufferedNone(dBuf, lBuf);
  }

  lemma ShapeIntro(v: View)
    requires Proper(v.m, v.s) && v.wsize >= 512 && |v.w| == 2 * v.wsize && AreBytes(v.w) && v.end <= |v.w|
    requires |v.head| == Size(v.m) && |v.prev| == v.wsize && |v.own| == v.wsize
    ensures Shape(v)
  {
  }

  lemma HeadIs(v: View, head: seq<int>)
    ensures v.(head := head) == View(v.m, v.s, v.wsize, v.w, v.end, head, v.prev, v.own)
  {
  }

  ghost function BlankOwn(wsize: nat): seq<int> { seq(wsize, i requires 0 <= i < wsize => i - wsize - wsize) }

  lemma BlankSize(wsize: nat)
    ensures |BlankOwn(wsize)| == wsize
  {
  }

  lemma BlankIs(v: View, own: seq<int>)
    requires Shape(v) && own == BlankOwn(v.wsize) && forall h :: 0 <= h < |v.head| ==> v.head[h] == 0
    ensures Blank(v.(end := 0, own := own))
    ensures v.(end := 0, own := own) == View(v.m, v.s, v.wsize, v.w, 0, v.head, v.prev, own)
  {
  }

  /** The bytes from p to before q are all b. */
  ghost predicate AllAre(w: seq<int>, p: nat, q: nat, b: int) {
    p <= q <= |w| && forall k :: p <= k < q ==> w[k] == b
  }

  lemma RunStart(w: seq<int>, p: nat, b: int)
    requires p + 4 <= |w| && w[p] == b && w[p + 1] == b && w[p + 2] == b && w[p + 3] == b
    ensures AllAre(w, p, p + 4, b)
  {
  }

  lemma RunMore(w: seq<int>, p: nat, q: nat, b: int)
    requires AllAre(w, p, q, b) && q < |w| && w[q] == b
    ensures AllAre(w, p, q + 1, b)
  {
  }

  lemma RunLess(w: seq<int>, p: nat, q: nat, b: int)
    requires AllAre(w, p, q + 1, b) && p <= q
    ensures AllAre(w, p, q, b)
  {
  }

  /** A run is a match at distance one. */
  lemma RunRepeats(w: seq<int>, data: seq<int>, end: nat, p: nat, scan: nat, b: int, n: nat, reach: int)
    requires Held(w, data, end) && 0 < p && AllAre(w, p - 1, scan, b) && p + 3 <= scan && n <= scan - p && 3 <= n <= 258
    requires p + n <= end && 1 <= reach
    ensures Repeats(data, |data| - end + p - 1, |data| - end + p, n, reach)
  {
    HeldPart(w, data, end, p - 1, p - 1 + n);
    HeldPart(w, data, end, p, p + n);
    assert w[p - 1..p - 1 + n] == w[p..p + n];
  }

  /** The byte before p comes three times more. */
  ghost predicate Thrice(d: seq<int>, p: int) {
    0 < p && p + 2 < |d| && d[p] == d[p - 1] && d[p + 1] == d[p - 1] && d[p + 2] == d[p - 1]
  }

  lemma ThriceHeld(w: seq<int>, data: seq<int>, end: nat, p: nat)
    requires Held(w, data, end) && 0 < p && p + 2 < end
    ensures p + 2 < |w| && 0 < |data| - end + p
    ensures Thrice(data, |data| - end + p) <==> w[p] == w[p - 1] && w[p + 1] == w[p - 1] && w[p + 2] == w[p - 1]
  {
    hide Held;
    HeldBounds(w, data, end);
    HeldAt(w, data, end, p - 1);
    HeldAt(w, data, end, p);
    HeldAt(w, data, end, p + 1);
    HeldAt(w, data, end, p + 2);
  }

  lemma RunHeld(w: seq<int>, data: seq<int>, end: nat, p: nat, scan: nat, b: int, n: nat)
    requires Held(w, data, end) && 0 < p && AllAre(w, p - 1, scan, b) && p + 3 <= scan <= p + 258
    requires (scan < p + 258 ==> scan < |w| && w[scan] != b) && p + 3 <= end
    requires n == if scan - p > end - p then end - p else scan - p
    ensures RunOf(data, |data| - end + p, end - p, n)
  {
    hide Held;
    HeldBounds(w, data, end);
    var at := |data| - end + p;
    HeldAt(w, data, end, p - 1);
    forall i | at <= i < at + n ensures data[i] == data[at - 1] {
      HeldAt(w, data, end, i - (|data| - end));
    }
    if n < 258 && n < end - p { HeldAt(w, data, end, p + n); }
  }

  lemma RunRule(d: seq<int>, t: T.Token, st: Step, n: nat)
    requires st.ahead > 0 && st.at + st.ahead == |d| && 0 <= st.base <= st.at
    requires n > 0 ==> n >= 3 && RunOf(d, st.at, st.ahead, n)
    requires if st.ahead >= 3 && st.base < st.at then (n > 0 <==> Thrice(d, st.at)) else n == 0
    requires if n >= 3 then t == T.Copy(n, 1) else t.Literal?
    ensures Repetition(d, t, st)
  {
    hide RunOf;
  }

  lemma RuleOne(R: Rules, d: seq<int>, t: T.Token, st: Step)
    requires match R.func
      case Fast => Greedy(R, d, t, st)
      case Slow => false
      case RunLength => Repetition(d, t, st)
      case Huffman => t.Literal?
    ensures Rule(R, d, [t], st)
  {
    hide Greedy;
    hide Repetition;
  }

  lemma RuleLazy(R: Rules, d: seq<int>, ts: seq<T.Token>, st: Step)
    requires R.func.Slow? && Rule(R, d, ts, st)
    ensures Lazy(R, d, ts, st)
  {
    hide Lazy;
  }

  lemma NothingAhead(R: Rules, d: seq<int>, st: Step)
    requires st.ahead == 0 && st.len == 2
    ensures Looking(R, d, st)
  {
    hide Latest;
  }

  lemma LogParts(R: Rules, data: seq<int>, tokens: seq<T.Token>, steps: seq<Step>, epoch: nat, ins: set<int>,
      len: nat, waiting: bool, found: int)
    requires LogOf(R, data, tokens, steps, epoch, ins, len, waiting, found)
    ensures Logged(R, data, tokens, steps) && Growing(steps, epoch, ins)
  {
    hide Logged;
    hide Growing;
  }

  lemma TakenIs(st: Step)
    ensures Taken(st) <==> st.before >= 3 && st.len <= st.before
    ensures LeftLen(st) == (if Taken(st) || st.ahead == 0 then 2 else st.len) &&
      (LeftWaiting(st) <==> !Taken(st) && st.ahead > 0)
  {
  }

  /** The comparison of deflate_rle, with a look at the limit every eighth time. */
  method CompareRun(window: array<int>, strstart: nat, b: int) returns (scan: nat)
    requires 0 < strstart && strstart + 258 < window.Length && AllAre(window[..], strstart - 1, strstart + 3, b)
    ensures strstart + 3 <= scan <= strstart + 258 && AllAre(window[..], strstart - 1, scan, b)
    ensures scan < strstart + 258 ==> window[scan] != b
  {
    hide *;
    ghost var w := window[..];
    scan := strstart + 2;
    while true
      invariant strstart + 2 <= scan < strstart + 258 && (scan - strstart - 2) % 8 == 0 &&
        AllAre(w, strstart - 1, scan + 1, b)
      decreases strstart + 258 - scan
    {
      ghost var was := scan;
      var k := 0;
      while k < 8
        invariant 0 <= k <= 8 && scan == was + k && AllAre(w, strstart - 1, scan + 1, b)
      {
        scan := scan + 1;
        k := k + 1;
        if window[scan] != b { return; }
        RunMore(w, strstart - 1, scan, b);
      }
      if scan >= strstart + 258 {
        RunLess(w, strstart - 1, scan, b);
        return;
      }
    }
  }

  lemma RepeatsParts(data: seq<int>, from: int, at: int, len: int, reach: int)
    requires Repeats(data, from, at, len, reach)
    ensures 0 <= from < at && at - from <= reach && 3 <= len <= 258 && at + len <= |data|
  {
  }

  lemma GrownIs(v: View, w: seq<int>, end: nat)
    ensures v.(w := w, end := end) == View(v.m, v.s, v.wsize, w, end, v.head, v.prev, v.own)
  {
  }

  lemma ReadySlid(m: bv32, s: bv32, h: bv32, w: seq<int>, p: nat, wsize: nat, v: View)
    requires Ready(m, s, h, w, p) && Shape(v) && v.end >= v.wsize == wsize && v.w == w && wsize <= p && p + 1 < v.end
    ensures Ready(m, s, h, w[wsize..] + w[wsize..], p - wsize)
  {
    hide Ready;
    hide KeyOf;
    hide Proper;
    hide Size;
    ReadyAt(m, s, h, w, p, 0);
    SlidShape(v);
    ReadySame(m, s, h, w, p, w[wsize..] + w[wsize..], p - wsize);
  }

  lemma SlidView(v: View, w: seq<int>, head: seq<int>, prev: seq<int>, own: seq<int>)
    requires Shape(v) && v.end >= v.wsize && w == v.w[v.wsize..] + v.w[v.wsize..]
    requires head == Lowered(v.head, v.wsize) && prev == Lowered(v.prev, v.wsize) && own == Dropped(v.own, v.wsize)
    ensures Slid(v) == View(v.m, v.s, v.wsize, w, v.end - v.wsize, head, prev, own)
  {
    hide AreBytes;
    hide Proper;
    hide Size;
    hide Lowered;
    hide Dropped;
  }
}
