/** deflate.c, longest_match: the search along a hash chain. */
module DeflateMatch {
  import opened DeflateHash
  import opened DeflateChains

  const MIN_MATCH: nat := 3
  const MAX_MATCH: nat := 258
  const MIN_LOOKAHEAD: nat := 262

  /** A row of configuration_table. */
  datatype Config = Config(goodLength: nat, maxLazy: nat, niceLength: nat, maxChain: nat)

  /** The first n bytes at p and q are the same. */
  ghost predicate Same(w: seq<int>, p: int, q: int, n: nat) {
    0 <= p && 0 <= q && p + n <= |w| && q + n <= |w| && w[p..p + n] == w[q..q + n]
  }

  lemma SameNone(w: seq<int>, p: nat, q: nat)
    requires p <= |w| && q <= |w|
    ensures Same(w, p, q, 0)
  {
  }

  lemma SameNext(w: seq<int>, p: int, q: int, n: nat)
    requires Same(w, p, q, n) && p + n < |w| && q + n < |w| && w[p + n] == w[q + n]
    ensures Same(w, p, q, n + 1)
  {
    assert w[p..p + n + 1] == w[p..p + n] + [w[p + n]];
    assert w[q..q + n + 1] == w[q..q + n] + [w[q + n]];
  }

  lemma SameLess(w: seq<int>, p: int, q: int, n: nat, m: nat)
    requires Same(w, p, q, n) && m <= n
    ensures Same(w, p, q, m)
  {
    assert w[p..p + n][..m] == w[p..p + m];
    assert w[q..q + n][..m] == w[q..q + m];
  }

  /** Strings with one hash whose first two bytes agree have the third in common. */
  lemma ThirdByte(v: View, p: int, q: int)
    requires Shape(v) && 0 <= p && p + 2 < |v.w| && 0 <= q && q + 2 < |v.w| && Key(v, p) == Key(v, q)
    requires v.w[p] == v.w[q] && v.w[p + 1] == v.w[q + 1]
    ensures v.w[p + 2] == v.w[q + 2]
  {
    hide Two;
    hide Update;
    hide Proper;
    hide Word;
    hide Size;
    hide Index;
    var x := Two(v.m, v.s, 0, Word(v.w[p]), Word(v.w[p + 1]));
    var c, d := Word(v.w[p + 2]), Word(v.w[q + 2]);
    IndexInjective(Update(v.m, v.s, x, c), Update(v.m, v.s, x, d));
    WordSmall(v.w[p + 2]);
    WordSmall(v.w[q + 2]);
    LastByte(v.m, v.s, x, c, d);
    WordInjective(v.w[p + 2], v.w[q + 2]);
  }

  /** A string that a match may be copied from. */
  ghost predicate Near(v: View, q: int, p: int)
    requires Shape(v) && 0 <= p && p + 2 < |v.w|
  {
    q != 0 && Link(v, q, p, Key(v, p)) && p - q <= v.wsize - MIN_LOOKAHEAD
  }

  lemma NearParts(v: View, q: int, p: int)
    requires Shape(v) && 0 <= p && p + 2 < |v.w| && Near(v, q, p)
    ensures 0 < q < p && p - q <= v.wsize - MIN_LOOKAHEAD && OnChain(v, q) && Key(v, q) == Key(v, p)
  {
    hide Key;
  }

  /** The comparison, once four bytes in the right places agree: byte after byte, with a look at the
      limit only every eighth time. */
  method Compare(window: array<int>, strstart: nat, match0: nat) returns (len: nat)
    requires match0 < strstart && strstart + MAX_MATCH < window.Length && Same(window[..], match0, strstart, 3)
    ensures 3 <= len <= MAX_MATCH && Same(window[..], match0, strstart, len)
    ensures len < MAX_MATCH ==> window[strstart + len] != window[match0 + len]
  {
    hide *;
    LimitsAre();
    ghost var w := window[..];
    var scan := 2;
    while true
      invariant 2 <= scan < MAX_MATCH && (scan - 2) % 8 == 0 && Same(w, match0, strstart, scan + 1)
      decreases MAX_MATCH - scan
    {
      ghost var was := scan;
      var k := 0;
      while k < 8
        invariant 0 <= k <= 8 && scan == was + k && Same(w, match0, strstart, scan + 1)
      {
        scan := scan + 1;
        k := k + 1;
        if window[strstart + scan] != window[match0 + scan] { return scan; }
        SameNext(w, match0, strstart, scan);
      }
      if scan >= MAX_MATCH {
        SameLess(w, match0, strstart, scan + 1, scan);
        return scan;
      }
    }
  }

  lemma LimitsAre()
    ensures MIN_MATCH == 3 && MAX_MATCH == 258 && MIN_LOOKAHEAD == 262
  {
  }

  /** A match of n bytes at p, copied from at. */
  ghost predicate Found(v: View, at: int, p: int, n: nat) {
    n >= MIN_MATCH && 0 < at < p && p - at <= v.wsize - MIN_LOOKAHEAD && Same(v.w, at, p, n)
  }

  lemma FoundIntro(v: View, at: int, p: int, n: nat)
    requires Shape(v) && 0 <= p && p + 2 < |v.w| && Near(v, at, p) && n >= MIN_MATCH && Same(v.w, at, p, n)
    ensures Found(v, at, p, n)
  {
    hide Same;
    hide Key;
    hide Shape;
  }

  lemma FoundLess(v: View, at: int, p: int, n: nat, m: nat)
    requires Found(v, at, p, n) && (m == n || MIN_MATCH <= m <= n)
    ensures Found(v, at, p, m) && n >= MIN_MATCH
  {
    SameLess(v.w, at, p, n, m);
  }

  /** One candidate: how much of it agrees, if the four bytes looked at first do. */
  method Try(window: array<int>, strstart: nat, cur: nat, bestLen: nat, scanEnd1: int, scanEnd: int, ghost v: View)
    returns (n: nat)
    requires Shape(v) && v.w == window[..] && strstart + MIN_LOOKAHEAD <= window.Length && 1 <= bestLen <= MAX_MATCH
    requires Near(v, cur, strstart)
    requires scanEnd1 == window[strstart + bestLen - 1] && scanEnd == window[strstart + bestLen]
    ensures n <= MAX_MATCH && (n > 0 ==> Found(v, cur, strstart, n))
    ensures var m := if n > bestLen then n else bestLen; m < MAX_MATCH ==> !Same(v.w, cur, strstart, m + 1)
  {
    hide *;
    LimitsAre();
    NearParts(v, cur, strstart);
    n := 0;
    if window[cur + bestLen] == scanEnd && window[cur + bestLen - 1] == scanEnd1 && window[cur] == window[strstart] &&
       window[cur + 1] == window[strstart + 1] {
      ThirdByte(v, cur, strstart);
      ThreeSame(v.w, cur, strstart);
      n := Compare(window, strstart, cur);
      FoundIntro(v, cur, strstart, n);
      if n < MAX_MATCH { Differs(v.w, cur, strstart, n, (if n > bestLen then n else bestLen) + 1); }
    } else {
      Differs4(v.w, cur, strstart, bestLen);
    }
  }

  lemma Differs(w: seq<int>, p: int, q: int, i: nat, n: nat)
    requires 0 <= p && 0 <= q && p + i < |w| && q + i < |w| && w[p + i] != w[q + i] && i < n
    ensures !Same(w, p, q, n)
  {
    hide Same;
    if Same(w, p, q, n) { SameAt(w, p, q, n, i); }
  }

  lemma SameAt(w: seq<int>, p: int, q: int, n: nat, i: nat)
    requires Same(w, p, q, n) && i < n
    ensures 0 <= p && 0 <= q && p + i < |w| && q + i < |w| && w[p + i] == w[q + i]
  {
    assert w[p..p + n][i] == w[q..q + n][i];
  }

  /** The four bytes looked at first: if one is different, no match is longer than before. */
  lemma Differs4(w: seq<int>, p: int, q: int, n: nat)
    requires 0 <= p && 0 <= q && p + n < |w| && q + n < |w| && 1 <= n
    requires w[p + n] != w[q + n] || w[p + n - 1] != w[q + n - 1] || w[p] != w[q] || w[p + 1] != w[q + 1]
    ensures !Same(w, p, q, n + 1)
  {
    hide Same;
    var i: nat :=
      if w[p + n] != w[q + n] then n else if w[p + n - 1] != w[q + n - 1] then n - 1 else if w[p] != w[q] then 0 else 1;
    Differs(w, p, q, i, n + 1);
  }

  /** The candidates looked at: the chain from cur on. */
  ghost predicate Walked(v: View, seen: seq<int>, cur: int) {
    v.wsize > 0 && |v.prev| == v.wsize && seen != [] && seen[0] == cur &&
    forall i :: 0 <= i < |seen| - 1 ==> seen[i + 1] == v.prev[seen[i] % v.wsize]
  }

  /** None of them agrees with the string at p on more than n bytes. */
  ghost predicate NoneLonger(w: seq<int>, seen: seq<int>, p: int, n: nat) {
    n < MAX_MATCH ==> forall q :: q in seen ==> !Same(w, q, p, n + 1)
  }

  lemma NoneYet(v: View, w: seq<int>, cur: int, p: int, n: nat)
    requires v.wsize > 0 && |v.prev| == v.wsize
    ensures NoneLonger(w, [], p, n) && Walked(v, [cur], cur)
  {
  }

  lemma OneMore(w: seq<int>, seen: seq<int>, q: int, p: int, n: nat, m: nat)
    requires NoneLonger(w, seen, p, n) && n <= m && (m < MAX_MATCH ==> !Same(w, q, p, m + 1))
    ensures NoneLonger(w, seen + [q], p, m)
  {
    if m < MAX_MATCH {
      forall x | x in seen + [q] ensures !Same(w, x, p, m + 1) {
        if x in seen && Same(w, x, p, m + 1) { SameLess(w, x, p, m + 1, n + 1); }
      }
    }
  }

  /** A candidate with a longer match comes first among those as long. */
  lemma LaterLonger(w: seq<int>, seen: seq<int>, q: int, p: int, n: nat, m: nat)
    requires NoneLonger(w, seen, p, n) && q in seen && n < m <= MAX_MATCH
    ensures !Same(w, q, p, m)
  {
    if Same(w, q, p, m) { SameLess(w, q, p, m, n + 1); }
  }

  lemma WalkedMore(v: View, seen: seq<int>, cur: int)
    requires Walked(v, seen, cur)
    ensures 0 <= seen[|seen| - 1] % v.wsize < |v.prev|
    ensures Walked(v, seen + [v.prev[seen[|seen| - 1] % v.wsize]], cur)
  {
    Remainder(seen[|seen| - 1], v.wsize);
    var seen' := seen + [v.prev[seen[|seen| - 1] % v.wsize]];
    forall i | 0 <= i < |seen'| - 1
      ensures 0 <= seen'[i] % v.wsize < |v.prev| && seen'[i + 1] == v.prev[seen'[i] % v.wsize]
    {
      Remainder(seen'[i], v.wsize);
    }
  }

  lemma WalkedInit(v: View, seen: seq<int>, q: int, cur: int)
    requires Walked(v, seen + [q], cur) && seen != []
    ensures Walked(v, seen, cur)
    ensures 0 <= seen[|seen| - 1] % v.wsize < |v.prev| && v.prev[seen[|seen| - 1] % v.wsize] == q
  {
    Remainder(seen[|seen| - 1], v.wsize);
    var t := seen + [q];
    assert t[|seen| - 1] == seen[|seen| - 1] && t[|seen|] == q;
    forall i | 0 <= i < |seen| - 1
      ensures 0 <= seen[i] % v.wsize < |v.prev| && seen[i + 1] == v.prev[seen[i] % v.wsize]
    {
      Remainder(seen[i], v.wsize);
      assert t[i] == seen[i] && t[i + 1] == seen[i + 1];
    }
  }

  /** How many candidates there are at most. */
  ghost function ChainLength(config: Config, prevLength: nat): nat {
    if prevLength >= config.goodLength then config.maxChain / 4 else config.maxChain
  }

  /** A length that is good enough. */
  ghost function Nice(config: Config, lookahead: nat): nat {
    if config.niceLength > lookahead then lookahead else config.niceLength
  }

  ghost function LimitOf(strstart: nat, wsize: nat): int {
    if strstart > wsize - MIN_LOOKAHEAD then strstart - (wsize - MIN_LOOKAHEAD) else 0
  }

  /** Why the search is over: enough candidates, a match that is good enough, or the end of what may be used. */
  ghost predicate Over(v: View, seen: seq<int>, limit: int, chain: nat, len: nat, nice: nat) {
    v.wsize > 0 && |v.prev| == v.wsize && seen != [] &&
    (|seen| == chain || len >= nice || v.prev[seen[|seen| - 1] % v.wsize] <= limit)
  }

  /** longest_match. A length above prevLength is that of a match at the position returned, and none of the
      candidates on the chain is longer. */
  method LongestMatch(window: array<int>, prev: array<int>, wsize: nat, strstart: nat, lookahead: nat, prevLength: nat,
                      matchStart0: int, cur0: int, config: Config, ghost v: View)
    returns (len: nat, matchStart: int, ghost seen: seq<int>)
    requires Chains(v, strstart + 1) && v.w == window[..] && v.prev == prev[..] && v.wsize == wsize &&
      config.maxChain >= 4
    requires strstart + lookahead == v.end && lookahead >= MIN_MATCH && strstart + MIN_LOOKAHEAD <= 2 * wsize
    requires 1 <= prevLength <= MAX_MATCH && Near(v, cur0, strstart)
    ensures len <= lookahead && len <= MAX_MATCH && (len >= prevLength || len == lookahead)
    ensures len > prevLength ==> Found(v, matchStart, strstart, len)
    ensures Walked(v, seen, cur0) && (len < lookahead ==> NoneLonger(v.w, seen, strstart, len))
    ensures Over(v, seen, LimitOf(strstart, wsize), ChainLength(config, prevLength), len, Nice(config, lookahead))
    ensures prevLength < len < lookahead && Same(v.w, cur0, strstart, len) ==> matchStart == cur0
  {
    hide *;
    LimitsAre();
    ChainsShape(v, strstart + 1);
    ShapeParts(v);
    ParametersAre(config, prevLength, lookahead, strstart, wsize);
    var chainLength := config.maxChain;
    var bestLen := prevLength;
    var niceMatch := config.niceLength;
    var limit := if strstart > wsize - MIN_LOOKAHEAD then strstart - (wsize - MIN_LOOKAHEAD) else 0;
    var scanEnd1, scanEnd := window[strstart + bestLen - 1], window[strstart + bestLen];
    if prevLength >= config.goodLength { chainLength := chainLength / 4; }
    if niceMatch > lookahead { niceMatch := lookahead; }
    matchStart := matchStart0;
    var cur := cur0;
    NearParts(v, cur, strstart);
    seen := [];
    NoneYet(v, v.w, cur, strstart, bestLen);
    assert seen + [cur] == [cur];
    while true
      invariant Near(v, cur, strstart) && 0 < cur < strstart && prevLength <= bestLen <= MAX_MATCH && chainLength >= 1
      invariant scanEnd1 == window[strstart + bestLen - 1] && scanEnd == window[strstart + bestLen]
      invariant bestLen > prevLength ==> Found(v, matchStart, strstart, bestLen)
      invariant NoneLonger(v.w, seen, strstart, bestLen) && Walked(v, seen + [cur], cur0)
      invariant |seen| + chainLength == ChainLength(config, prevLength)
      invariant bestLen > prevLength && Same(v.w, cur0, strstart, bestLen) ==> matchStart == cur0
      invariant if seen == [] then cur == cur0 && bestLen == prevLength else cur0 in seen
      decreases cur
    {
      var n := Try(window, strstart, cur, bestLen, scanEnd1, scanEnd, v);
      OneMore(v.w, seen, cur, strstart, bestLen, if n > bestLen then n else bestLen);
      ghost var was := seen;
      seen := seen + [cur];
      if n > bestLen {
        if was != [] { LaterLonger(v.w, was, cur0, strstart, bestLen, n); }
        matchStart := cur;
        bestLen := n;
        if n >= niceMatch { break; }
        scanEnd1, scanEnd := window[strstart + bestLen - 1], window[strstart + bestLen];
      }
      NearParts(v, cur, strstart);
      Follow(v, cur, strstart + 1);
      NextNear(v, v.prev[cur % wsize], cur, strstart);
      WalkedMore(v, seen, cur0);
      cur := prev[cur % wsize];
      chainLength := chainLength - 1;
      if cur <= limit || chainLength == 0 {
        WalkedInit(v, seen, cur, cur0);
        break;
      }
    }
    len := if bestLen <= lookahead then bestLen else lookahead;
    if len > prevLength { FoundLess(v, matchStart, strstart, bestLen, len); }
    OverIntro(v, seen, limit, ChainLength(config, prevLength), len, niceMatch);
  }

  lemma ParametersAre(config: Config, prevLength: nat, lookahead: nat, strstart: nat, wsize: nat)
    ensures ChainLength(config, prevLength) ==
      if prevLength >= config.goodLength then config.maxChain / 4 else config.maxChain
    ensures Nice(config, lookahead) == if config.niceLength > lookahead then lookahead else config.niceLength
    ensures LimitOf(strstart, wsize) ==
      if strstart > wsize - MIN_LOOKAHEAD then strstart - (wsize - MIN_LOOKAHEAD) else 0
  {
  }

  lemma OverIntro(v: View, seen: seq<int>, limit: int, chain: nat, len: nat, nice: nat)
    requires v.wsize > 0 && |v.prev| == v.wsize && seen != []
    requires |seen| == chain || len >= nice || v.prev[seen[|seen| - 1] % v.wsize] <= limit
    ensures Over(v, seen, limit, chain, len, nice)
  {
  }

  lemma ThreeSame(w: seq<int>, p: nat, q: nat)
    requires p + 2 < |w| && q + 2 < |w| && w[p] == w[q] && w[p + 1] == w[q + 1] && w[p + 2] == w[q + 2]
    ensures Same(w, p, q, 3)
  {
    SameNone(w, p, q);
    SameNext(w, p, q, 0);
    SameNext(w, p, q, 1);
    SameNext(w, p, q, 2);
  }

  lemma NextNear(v: View, q: int, cur: int, p: int)
    requires Shape(v) && 0 < cur < p && p + 2 < |v.w| && Key(v, cur) == Key(v, p) && Link(v, q, cur, Key(v, cur))
    ensures 0 <= q < cur && (q != 0 && p - q <= v.wsize - MIN_LOOKAHEAD ==> Near(v, q, p))
  {
    hide Key;
  }
}
