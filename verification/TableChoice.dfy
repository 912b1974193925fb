/** compress.c, the first half of sendMTFValues: choosing the coding tables and, for every fifty
    symbols, the table that codes them cheapest. */
module TableChoice {
  import opened CodeForest
  import opened CodeLengths
  import MtfEncoder
  import BlockWriter
  import CanonicalCode
  import opened Counting

  const LESSER_ICOST := 0
  const GREATER_ICOST := 15
  const N_ITERS := 4
  const MAX_ALPHA := 258

  /** Rows of lengths for the symbols. */
  ghost predicate Costs(len: seq<seq<int>>, nGroups: nat, alphaSize: nat) {
    2 <= nGroups <= 6 && 2 <= alphaSize <= MAX_ALPHA && |len| == nGroups &&
    forall t {:trigger len[t]} ::
      0 <= t < nGroups ==> |len[t]| == alphaSize && forall v :: 0 <= v < alphaSize ==> 0 <= len[t][v] <= 20
  }

  ghost predicate InAlphabet(syms: seq<int>, alphaSize: nat) {
    forall i :: 0 <= i < |syms| ==> 0 <= syms[i] < alphaSize
  }

  /* ---------- the cost of a group ---------- */

  /** What the symbols from gs up to e cost with the given lengths. */
  ghost function GroupCost(lens: seq<int>, syms: seq<int>, gs: nat, e: nat): (c: int)
    requires gs <= e <= |syms| && InAlphabet(syms, |lens|)
    decreases e - gs
  {
    if e == gs then 0 else GroupCost(lens, syms, gs, e - 1) + lens[syms[e - 1]]
  }

  lemma {:induction false} CostBound(len: seq<seq<int>>, nGroups: nat, alphaSize: nat, t: nat, syms: seq<int>, gs: nat,
      e: nat)
    requires Costs(len, nGroups, alphaSize) && t < nGroups && InAlphabet(syms, alphaSize) && gs <= e <= |syms|
    ensures 0 <= GroupCost(len[t], syms, gs, e) <= 20 * (e - gs)
    decreases e
  {
    if e > gs { CostBound(len, nGroups, alphaSize, t, syms, gs, e - 1); }
  }

  lemma CostStep(len: seq<seq<int>>, nGroups: nat, alphaSize: nat, t: nat, syms: seq<int>, gs: nat, e: nat)
    requires Costs(len, nGroups, alphaSize) && t < nGroups && InAlphabet(syms, alphaSize) && gs <= e < |syms|
    ensures 0 <= syms[e] < |len[t]| &&
      GroupCost(len[t], syms, gs, e + 1) == GroupCost(len[t], syms, gs, e) + len[t][syms[e]]
    ensures GroupCost(len[t], syms, gs, gs) == 0
  {
  }

  /** Two 16-bit sums kept in one word stay apart as long as the lower one is below 2^16. */
  lemma Unpack(hi: int, lo: int)
    requires 0 <= hi && 0 <= lo < 0x1_0000
    ensures (hi * 0x1_0000 + lo) % 0x1_0000 == lo && (hi * 0x1_0000 + lo) / 0x1_0000 == hi
  {
  }

  /** Full groups with six tables: three pairs of sums, two in a word. */
  method FastCosts(words: seq<int>, gs: nat, len: seq<seq<int>>, ghost alphaSize: nat, ghost syms: seq<int>)
      returns (cost: seq<int>)
    requires Costs(len, 6, alphaSize) && InAlphabet(syms, alphaSize) && BlockWriter.HoldsSyms(words, syms) &&
      gs + 50 <= |syms|
    ensures |cost| == 6 && forall t :: 0 <= t < 6 ==> cost[t] == GroupCost(len[t], syms, gs, gs + 50)
  {
    hide *;
    FastStart(len, alphaSize, syms, gs);
    var cost01, cost23, cost45 := 0, 0, 0;
    var nn := 0;
    while nn < 50   // unrolled in the source
      invariant 0 <= nn <= 50
      invariant cost01 == GroupCost(len[1], syms, gs, gs + nn) * 0x1_0000 + GroupCost(len[0], syms, gs, gs + nn)
      invariant cost23 == GroupCost(len[3], syms, gs, gs + nn) * 0x1_0000 + GroupCost(len[2], syms, gs, gs + nn)
      invariant cost45 == GroupCost(len[5], syms, gs, gs + nn) * 0x1_0000 + GroupCost(len[4], syms, gs, gs + nn)
    {
      BlockWriter.SymAt(words, syms, gs + nn);
      FastStep(len, alphaSize, syms, gs, gs + nn);
      var icv := MtfEncoder.Half(words[(gs + nn) / 2], gs + nn);
      cost01 := cost01 + (len[1][icv] * 0x1_0000 + len[0][icv]);
      cost23 := cost23 + (len[3][icv] * 0x1_0000 + len[2][icv]);
      cost45 := cost45 + (len[5][icv] * 0x1_0000 + len[4][icv]);
      nn := nn + 1;
    }
    FastEnd(len, alphaSize, syms, gs, cost01, cost23, cost45);
    cost := [cost01 % 0x1_0000, cost01 / 0x1_0000, cost23 % 0x1_0000, cost23 / 0x1_0000, cost45 % 0x1_0000,
      cost45 / 0x1_0000];
  }

  lemma FastStart(len: seq<seq<int>>, alphaSize: nat, syms: seq<int>, gs: nat)
    requires Costs(len, 6, alphaSize) && InAlphabet(syms, alphaSize) && gs <= |syms|
    ensures |len| == 6 && forall t {:trigger len[t]} ::
      0 <= t < 6 ==> |len[t]| == alphaSize && GroupCost(len[t], syms, gs, gs) == 0
  {
  }

  lemma FastStep(len: seq<seq<int>>, alphaSize: nat, syms: seq<int>, gs: nat, e: nat)
    requires Costs(len, 6, alphaSize) && InAlphabet(syms, alphaSize) && gs <= e < |syms|
    ensures 0 <= syms[e] < alphaSize
    ensures forall t {:trigger len[t]} ::
      0 <= t < 6 ==> GroupCost(len[t], syms, gs, e + 1) == GroupCost(len[t], syms, gs, e) + len[t][syms[e]]
  {
    forall t {:trigger len[t]} | 0 <= t < 6
      ensures GroupCost(len[t], syms, gs, e + 1) == GroupCost(len[t], syms, gs, e) + len[t][syms[e]] {
      CostStep(len, 6, alphaSize, t, syms, gs, e);
    }
  }

  lemma FastEnd(len: seq<seq<int>>, alphaSize: nat, syms: seq<int>, gs: nat, cost01: int, cost23: int, cost45: int)
    requires Costs(len, 6, alphaSize) && InAlphabet(syms, alphaSize) && gs + 50 <= |syms|
    requires cost01 == GroupCost(len[1], syms, gs, gs + 50) * 0x1_0000 + GroupCost(len[0], syms, gs, gs + 50)
    requires cost23 == GroupCost(len[3], syms, gs, gs + 50) * 0x1_0000 + GroupCost(len[2], syms, gs, gs + 50)
    requires cost45 == GroupCost(len[5], syms, gs, gs + 50) * 0x1_0000 + GroupCost(len[4], syms, gs, gs + 50)
    ensures cost01 % 0x1_0000 == GroupCost(len[0], syms, gs, gs + 50) &&
      cost01 / 0x1_0000 == GroupCost(len[1], syms, gs, gs + 50)
    ensures cost23 % 0x1_0000 == GroupCost(len[2], syms, gs, gs + 50) &&
      cost23 / 0x1_0000 == GroupCost(len[3], syms, gs, gs + 50)
    ensures cost45 % 0x1_0000 == GroupCost(len[4], syms, gs, gs + 50) &&
      cost45 / 0x1_0000 == GroupCost(len[5], syms, gs, gs + 50)
  {
    hide GroupCost;
    forall t {:trigger len[t]} | 0 <= t < 6 ensures 0 <= GroupCost(len[t], syms, gs, gs + 50) < 0x1_0000 {
      CostBound(len, 6, alphaSize, t, syms, gs, gs + 50);
    }
    Unpack(GroupCost(len[1], syms, gs, gs + 50), GroupCost(len[0], syms, gs, gs + 50));
    Unpack(GroupCost(len[3], syms, gs, gs + 50), GroupCost(len[2], syms, gs, gs + 50));
    Unpack(GroupCost(len[5], syms, gs, gs + 50), GroupCost(len[4], syms, gs, gs + 50));
  }

  /** Any group, one table after the other for every symbol. */
  method SlowCosts(words: seq<int>, gs: nat, ge: int, nGroups: nat, len: seq<seq<int>>, ghost alphaSize: nat,
      ghost syms: seq<int>)
    returns (cost: array<int>)
    requires Costs(len, nGroups, alphaSize) && InAlphabet(syms, alphaSize) && BlockWriter.HoldsSyms(words, syms) &&
      gs <= ge < |syms|
    ensures fresh(cost) && cost.Length == nGroups && forall t ::
      0 <= t < nGroups ==> cost[t] == GroupCost(len[t], syms, gs, ge + 1)
  {
    hide GroupCost;
    hide BlockWriter.HoldsSyms;
    cost := new int[nGroups](_ => 0);
    forall t | 0 <= t < nGroups
      ensures GroupCost(len[t], syms, gs, gs) == 0 { CostStep(len, nGroups, alphaSize, t, syms, gs, gs); }
    var i := gs;
    while i <= ge
      invariant gs <= i <= ge + 1 && forall t :: 0 <= t < nGroups ==> cost[t] == GroupCost(len[t], syms, gs, i)
    {
      BlockWriter.SymAt(words, syms, i);
      var icv := MtfEncoder.Half(words[i / 2], i);
      var t := 0;
      while t < nGroups
        invariant 0 <= t <= nGroups && forall u :: 0 <= u < t ==> cost[u] == GroupCost(len[u], syms, gs, i + 1)
        invariant forall u :: t <= u < nGroups ==> cost[u] == GroupCost(len[u], syms, gs, i)
      {
        CostStep(len, nGroups, alphaSize, t, syms, gs, i);
        cost[t] := cost[t] + len[t][icv];
        t := t + 1;
      }
      i := i + 1;
    }
  }

  /** The first of the cheapest tables for the group. */
  ghost predicate Cheapest6(len: seq<seq<int>>, nGroups: nat, alphaSize: nat, syms: seq<int>, gs: nat, e: nat,
      bt: int) {
    Costs(len, nGroups, alphaSize) && InAlphabet(syms, alphaSize) && gs <= e <= |syms| && 0 <= bt < nGroups &&
    (forall t :: 0 <= t < nGroups ==> GroupCost(len[bt], syms, gs, e) <= GroupCost(len[t], syms, gs, e)) &&
    forall t :: 0 <= t < bt ==> GroupCost(len[bt], syms, gs, e) < GroupCost(len[t], syms, gs, e)
  }

  method BestTable(words: seq<int>, gs: nat, ge: int, nGroups: nat, len: seq<seq<int>>, ghost alphaSize: nat,
      ghost syms: seq<int>)
    returns (bt: int)
    requires Costs(len, nGroups, alphaSize) && InAlphabet(syms, alphaSize) && BlockWriter.HoldsSyms(words, syms) &&
      gs <= ge < |syms| && ge < gs + 50
    ensures Cheapest6(len, nGroups, alphaSize, syms, gs, ge + 1, bt)
  {
    hide GroupCost;
    hide BlockWriter.HoldsSyms;
    var cost;
    if nGroups == 6 && 50 == ge - gs + 1 {
      cost := FastCosts(words, gs, len, alphaSize, syms);
    } else {
      var slow := SlowCosts(words, gs, ge, nGroups, len, alphaSize, syms);
      cost := slow[..];
    }
    forall t | 0 <= t < nGroups ensures cost[t] <= 1000 { CostBound(len, nGroups, alphaSize, t, syms, gs, ge + 1); }
    var bc := 999999999;
    bt := -1;
    var t := 0;
    while t < nGroups
      invariant 0 <= t <= nGroups && (t == 0 ==> bc == 999999999 && bt == -1)
      invariant t > 0 ==> 0 <= bt < t && bc == cost[bt] && (forall u :: 0 <= u < t ==> bc <= cost[u]) && forall u ::
        0 <= u < bt ==> bc < cost[u]
    {
      if cost[t] < bc { bc, bt := cost[t], t; }
      t := t + 1;
    }
  }

  /* ---------- how often each table codes each symbol ---------- */

  /** Occurrences of v among the first k symbols in groups given to table t. */
  ghost function Uses(syms: seq<int>, sel: seq<int>, k: nat, t: int, v: int): (n: nat)
    requires k <= |syms| && (k + 49) / 50 <= |sel|
  {
    if k == 0 then 0 else Uses(syms, sel, k - 1, t, v) + (if sel[(k - 1) / 50] == t && syms[k - 1] == v then 1 else 0)
  }

  lemma {:induction false} UsesSame(syms: seq<int>, sel: seq<int>, sel': seq<int>, k: nat, t: int, v: int)
    requires k <= |syms| && (k + 49) / 50 <= |sel| && (k + 49) / 50 <= |sel'| &&
      sel[..(k + 49) / 50] == sel'[..(k + 49) / 50]
    ensures Uses(syms, sel, k, t, v) == Uses(syms, sel', k, t, v)
    decreases k
  {
    if k > 0 {
      assert sel[(k - 1) / 50] == sel[..(k + 49) / 50][(k - 1) / 50] == sel'[(k - 1) / 50];
      assert sel[..(k - 1 + 49) / 50] == sel[..(k + 49) / 50][..(k - 1 + 49) / 50];
      assert sel'[..(k - 1 + 49) / 50] == sel'[..(k + 49) / 50][..(k - 1 + 49) / 50];
      UsesSame(syms, sel, sel', k - 1, t, v);
    }
  }

  /** The use counts of one table. */
  ghost function Row(syms: seq<int>, sel: seq<int>, k: nat, t: int, alphaSize: nat): (r: seq<int>)
    requires k <= |syms| && (k + 49) / 50 <= |sel|
    ensures |r| == alphaSize && forall v :: 0 <= v < alphaSize ==> r[v] == Uses(syms, sel, k, t, v)
  {
    seq(alphaSize, v => Uses(syms, sel, k, t, v))
  }

  ghost function Total(f: seq<int>, m: nat): (s: int)
    requires m <= |f|
  {
    if m == 0 then 0 else Total(f, m - 1) + f[m - 1]
  }

  lemma {:induction false} TotalBumped(f: seq<int>, g: seq<int>, m: nat, x: int)
    requires |f| == |g| && m <= |f| && forall v :: 0 <= v < |f| ==> g[v] <= f[v] + (if v == x then 1 else 0)
    ensures Total(g, m) <= Total(f, m) + (if 0 <= x < m then 1 else 0)
    decreases m
  {
    if m > 0 { TotalBumped(f, g, m - 1, x); }
  }

  lemma {:induction false} TotalZero(f: seq<int>, m: nat)
    requires m <= |f| && forall v :: 0 <= v < |f| ==> f[v] == 0
    ensures Total(f, m) == 0
    decreases m
  {
    if m > 0 { TotalZero(f, m - 1); }
  }

  /** No table codes more symbols than there are. */
  lemma {:induction false} RowTotal(syms: seq<int>, sel: seq<int>, k: nat, t: int, alphaSize: nat)
    requires k <= |syms| && (k + 49) / 50 <= |sel|
    ensures Total(Row(syms, sel, k, t, alphaSize), alphaSize) <= k
    decreases k
  {
    if k == 0 {
      TotalZero(Row(syms, sel, 0, t, alphaSize), alphaSize);
    } else {
      RowTotal(syms, sel, k - 1, t, alphaSize);
      TotalBumped(Row(syms, sel, k - 1, t, alphaSize), Row(syms, sel, k, t, alphaSize), alphaSize, syms[k - 1]);
    }
  }

  lemma {:induction false} WeightsTotal(f: seq<int>, m: nat)
    requires m <= |f| && forall v :: 0 <= v < |f| ==> f[v] >= 0
    ensures Sum(Weights(f), m) <= Total(f, m) + m
    decreases m
  {
    if m > 0 { WeightsTotal(f, m - 1); }
  }

  /** The frequencies given to the length-limited Huffman code stay within its range. */
  lemma RowFits(syms: seq<int>, sel: seq<int>, k: nat, t: int, alphaSize: nat)
    requires k <= |syms| <= 900_001 && (k + 49) / 50 <= |sel| && alphaSize <= 258
    ensures Sum(Weights(Row(syms, sel, k, t, alphaSize)), alphaSize) < 0x80_0000
  {
    RowTotal(syms, sel, k, t, alphaSize);
    WeightsTotal(Row(syms, sel, k, t, alphaSize), alphaSize);
  }

  /* ---------- the first tables ---------- */

  /** Two tables, and one more for each of these bounds that the number of symbols reaches. */
  ghost function TablesUsed(nMTF: int): (n: nat)
    ensures 2 <= n <= 6
  {
    2 + Reached([200, 600, 1200, 2400], nMTF, 4)
  }

  ghost function Reached(bounds: seq<int>, nMTF: int, i: nat): (n: nat)
    requires i <= |bounds|
    ensures n <= i
  {
    if i == 0 then 0 else Reached(bounds, nMTF, i - 1) + (if nMTF >= bounds[i - 1] then 1 else 0)
  }

  /** The range from gs that ends before next is the shortest that holds target occurrences, or all that is left. */
  ghost predicate Shortest(f: seq<int>, gs: nat, next: nat, target: int) {
    gs <= next <= |f| && (next < |f| ==> Total(f, next) - Total(f, gs) >= target) &&
    (next > gs ==> Total(f, next - 1) - Total(f, gs) < target)
  }

  /** The range of one table: its share of the occurrences that are left, nPart tables being left to share them.
      Every second table, but not the last, leaves the last symbol of a longer range to the next. */
  ghost predicate Share(f: seq<int>, gs: nat, next: nat, nPart: nat, nGroups: nat) {
    nPart > 0 && gs <= |f| && exists e: nat :: ShareUpTo(f, gs, e, next, nPart, nGroups)
  }

  ghost predicate ShareUpTo(f: seq<int>, gs: nat, e: nat, next: nat, nPart: nat, nGroups: nat)
    requires nPart > 0 && gs <= |f|
  {
    Shortest(f, gs, e, (Total(f, |f|) - Total(f, gs)) / nPart) &&
    next == if e > gs + 1 && nPart != 1 && (nGroups - nPart) % 2 == 1 then e - 1 else e
  }

  /** The first ranges, of the tables nGroups - 1, nGroups - 2 and so on. */
  ghost predicate Ranges(cuts: seq<nat>, f: seq<int>, nGroups: nat) {
    0 < |cuts| <= nGroups + 1 && cuts[0] == 0 &&
    forall j, k :: 0 <= j && k == j + 1 < |cuts| ==> Share(f, cuts[j], cuts[k], nGroups - j, nGroups)
  }

  /** The table that has range j costs 0 in it and 15 elsewhere; one without a range costs 15 everywhere. */
  ghost predicate Marked(row: seq<int>, cuts: seq<nat>, j: int, alphaSize: nat) {
    |row| == alphaSize && forall v ::
      0 <= v < alphaSize ==> row[v] == if 0 <= j < |cuts| - 1 && cuts[j] <= v < cuts[j + 1] then 0 else 15
  }

  /** The tables so far. */
  ghost predicate Divided(len: seq<seq<int>>, cuts: seq<nat>, f: seq<int>, nGroups: nat, alphaSize: nat) {
    2 <= nGroups <= 6 && 2 <= alphaSize <= 258 && |len| == nGroups && |f| == alphaSize && Ranges(cuts, f, nGroups) &&
    forall t {:trigger len[t]} :: 0 <= t < nGroups ==> Marked(len[t], cuts, nGroups - 1 - t, alphaSize)
  }

  /** All tables have their ranges. */
  ghost predicate First(len: seq<seq<int>>, f: seq<int>, nGroups: nat, alphaSize: nat) {
    exists cuts :: Divided(len, cuts, f, nGroups, alphaSize) && |cuts| == nGroups + 1 && cuts[nGroups] == alphaSize
  }

  method AllDear(nGroups: nat, alphaSize: nat, ghost f: seq<int>) returns (len: seq<seq<int>>)
    requires 2 <= nGroups <= 6 && 2 <= alphaSize <= MAX_ALPHA && |f| == alphaSize
    ensures Divided(len, [0], f, nGroups, alphaSize)
  {
    len := [];
    var t := 0;
    while t < nGroups
      invariant 0 <= t <= nGroups && |len| == t
      invariant forall u {:trigger len[u]} ::
        0 <= u < t ==> |len[u]| == alphaSize && forall v :: 0 <= v < alphaSize ==> len[u][v] == GREATER_ICOST
    {
      var row := RangeRow(1, 0, alphaSize);
      len := len + [row];
      t := t + 1;
    }
  }

  /** Cheap from gs to ge, dear elsewhere. */
  method RangeRow(gs: int, ge: int, alphaSize: nat) returns (row: seq<int>)
    ensures |row| == alphaSize && forall v ::
      0 <= v < alphaSize ==> row[v] == if gs <= v <= ge then LESSER_ICOST else GREATER_ICOST
  {
    var r := new int[alphaSize];
    var v := 0;
    while v < alphaSize
      invariant 0 <= v <= alphaSize
      invariant forall u :: 0 <= u < v ==> r[u] == if gs <= u <= ge then LESSER_ICOST else GREATER_ICOST
    {
      if v >= gs && v <= ge { r[v] := LESSER_ICOST; } else { r[v] := GREATER_ICOST; }
      v := v + 1;
    }
    row := r[..];
  }

  /** One more range. */
  lemma DividedStep(len: seq<seq<int>>, cuts: seq<nat>, f: seq<int>, nGroups: nat, alphaSize: nat, next: nat,
      row: seq<int>)
    requires Divided(len, cuts, f, nGroups, alphaSize) && |cuts| <= nGroups && next <= alphaSize
    requires Share(f, cuts[|cuts| - 1], next, nGroups + 1 - |cuts|, nGroups)
    requires |row| == alphaSize && forall v ::
      0 <= v < alphaSize ==> row[v] == if cuts[|cuts| - 1] <= v <= next - 1 then LESSER_ICOST else GREATER_ICOST
    ensures Divided(len[nGroups - |cuts| := row], cuts + [next], f, nGroups, alphaSize)
  {
    hide Share;
    var more, len' := cuts + [next], len[nGroups - |cuts| := row];
    forall j, k | 0 <= j && k == j + 1 < |more| ensures Share(f, more[j], more[k], nGroups - j, nGroups) {
      if k < |cuts| { assert more[j] == cuts[j] && more[k] == cuts[k]; }
    }
    forall t {:trigger len'[t]} | 0 <= t < nGroups ensures Marked(len'[t], more, nGroups - 1 - t, alphaSize) {
      if t != nGroups - |cuts| { assert Marked(len[t], cuts, nGroups - 1 - t, alphaSize); }
    }
  }

  lemma {:induction false} TotalGrows(f: seq<int>, m: nat, n: nat)
    requires m <= n <= |f| && forall v :: 0 <= v < |f| ==> f[v] >= 0
    ensures Total(f, m) <= Total(f, n)
    decreases n
  {
    if m < n { TotalGrows(f, m, n - 1); }
  }

  /** The symbols that remain up to the last are at least one. */
  lemma LastCounts(f: seq<int>, m: nat, alphaSize: nat)
    requires m < alphaSize == |f| && (forall v :: 0 <= v < |f| ==> f[v] >= 0) && f[alphaSize - 1] > 0
    ensures Total(f, m) < Total(f, alphaSize)
  {
    TotalGrows(f, m, alphaSize - 1);
  }

  /** Where the range from gs ends: as soon as it holds tFreq occurrences. */
  method RangeEnd(mtfFreq: seq<int>, gs: nat, tFreq: int) returns (ge: int, aFreq: int)
    requires gs <= |mtfFreq| && forall v :: 0 <= v < |mtfFreq| ==> mtfFreq[v] >= 0
    ensures gs - 1 <= ge < |mtfFreq| && aFreq == Total(mtfFreq, ge + 1) - Total(mtfFreq, gs)
    ensures Shortest(mtfFreq, gs, ge + 1, tFreq)
  {
    ge := gs - 1;
    aFreq := 0;
    while aFreq < tFreq && ge < |mtfFreq| - 1
      invariant gs - 1 <= ge < |mtfFreq| && aFreq == Total(mtfFreq, ge + 1) - Total(mtfFreq, gs)
      invariant ge >= gs ==> Total(mtfFreq, ge) - Total(mtfFreq, gs) < tFreq
    {
      ge := ge + 1;
      aFreq := aFreq + mtfFreq[ge];
    }
  }

  lemma ShareIntro(f: seq<int>, gs: nat, e: nat, nPart: nat, nGroups: nat)
    requires nPart > 0 && gs <= |f| && Shortest(f, gs, e, (Total(f, |f|) - Total(f, gs)) / nPart)
    ensures Share(f, gs, if e > gs + 1 && nPart != 1 && (nGroups - nPart) % 2 == 1 then e - 1 else e, nPart, nGroups)
  {
    hide Total;
    hide Shortest;
    assert ShareUpTo(f, gs, e, if e > gs + 1 && nPart != 1 && (nGroups - nPart) % 2 == 1 then e - 1 else e, nPart,
      nGroups);
  }

  lemma ShortestParts(f: seq<int>, gs: nat, next: nat, target: int)
    requires Shortest(f, gs, next, target)
    ensures gs <= next <= |f| && (next < |f| ==> Total(f, next) - Total(f, gs) >= target)
  {
  }

  lemma RangesLast(len: seq<seq<int>>, cuts: seq<nat>, f: seq<int>, nGroups: nat, alphaSize: nat)
    requires Divided(len, cuts, f, nGroups, alphaSize)
    ensures |len| == nGroups && 0 < |cuts| <= nGroups + 1 && |f| == alphaSize && (|cuts| == 1 ==> cuts[0] == 0)
  {
  }

  lemma FirstIntro(len: seq<seq<int>>, cuts: seq<nat>, f: seq<int>, nGroups: nat, alphaSize: nat)
    requires Divided(len, cuts, f, nGroups, alphaSize) && |cuts| == nGroups + 1 && cuts[nGroups] == alphaSize
    ensures First(len, f, nGroups, alphaSize)
  {
    hide Divided;
  }

  /** Generate an initial set of coding tables: each symbol is cheap in one of them, and each table has its share. */
  method InitialTables(mtfFreq: seq<int>, nMTF: nat, nGroups: nat, alphaSize: nat) returns (len: seq<seq<int>>)
    requires 2 <= nGroups <= 6 && 2 <= alphaSize <= MAX_ALPHA && |mtfFreq| == alphaSize
    requires (forall v :: 0 <= v < alphaSize ==> mtfFreq[v] >= 0) && Total(mtfFreq, alphaSize) == nMTF &&
      mtfFreq[alphaSize - 1] > 0
    ensures First(len, mtfFreq, nGroups, alphaSize)
  {
    hide Total;
    hide Divided;
    hide Shortest;
    hide Share;
    hide First;
    len := AllDear(nGroups, alphaSize, mtfFreq);
    ghost var cuts: seq<nat> := [0];
    var nPart, remF, gs := nGroups, nMTF, 0;
    TotalNone(mtfFreq);
    while nPart > 0
      invariant 0 <= nPart <= nGroups && |cuts| == nGroups + 1 - nPart && 0 <= gs == cuts[|cuts| - 1] <= alphaSize
      invariant remF == nMTF - Total(mtfFreq, gs)
      invariant Divided(len, cuts, mtfFreq, nGroups, alphaSize) && (nPart == 0 ==> gs == alphaSize)
    {
      TotalGrows(mtfFreq, gs, alphaSize);
      var tFreq := remF / nPart;
      var ge, aFreq := RangeEnd(mtfFreq, gs, tFreq);
      ShareIntro(mtfFreq, gs, ge + 1, nPart, nGroups);
      ShortestParts(mtfFreq, gs, ge + 1, tFreq);
      if ge > gs && nPart != nGroups && nPart != 1 && (nGroups - nPart) % 2 == 1 {
        TotalNext(mtfFreq, ge);
        aFreq := aFreq - mtfFreq[ge];
        ge := ge - 1;
      }
      if nPart == 1 && ge + 1 < alphaSize { LastCounts(mtfFreq, ge + 1, alphaSize); }
      var row := RangeRow(gs, ge, alphaSize);
      DividedStep(len, cuts, mtfFreq, nGroups, alphaSize, ge + 1, row);
      RangesLast(len, cuts, mtfFreq, nGroups, alphaSize);
      len := len[nPart - 1 := row];
      cuts := cuts + [ge + 1];
      nPart := nPart - 1;
      gs := ge + 1;
      remF := remF - aFreq;
    }
    FirstIntro(len, cuts, mtfFreq, nGroups, alphaSize);
  }

  /** Each symbol is cheap in exactly one of the first tables. */
  lemma OneCheap(len: seq<seq<int>>, f: seq<int>, nGroups: nat, alphaSize: nat, v: nat) returns (home: nat)
    requires First(len, f, nGroups, alphaSize) && v < alphaSize && |len| == nGroups
    ensures home < nGroups && forall t :: 0 <= t < nGroups ==> |len[t]| == alphaSize
    ensures forall t :: 0 <= t < nGroups ==> (len[t][v] == 0 <==> t == home) && (len[t][v] == 15 <==> t != home)
  {
    hide Total;
    hide Shortest;
    var cuts :| Divided(len, cuts, f, nGroups, alphaSize) && |cuts| == nGroups + 1 && cuts[nGroups] == alphaSize;
    var j := RangeOf(cuts, f, nGroups, v, nGroups);
    home := nGroups - 1 - j;
    forall t | 0 <= t < nGroups
      ensures |len[t]| == alphaSize && (len[t][v] == 0 <==> t == home) && (len[t][v] == 15 <==> t != home) {
      assert Marked(len[t], cuts, nGroups - 1 - t, alphaSize);
      if t < home { CutsGrow(cuts, f, nGroups, j + 1, nGroups - 1 - t); }
      if t > home { CutsGrow(cuts, f, nGroups, nGroups - t, j); }
    }
  }

  lemma {:induction false} CutsGrow(cuts: seq<nat>, f: seq<int>, nGroups: nat, i: nat, j: nat)
    requires Ranges(cuts, f, nGroups) && i <= j < |cuts|
    ensures cuts[i] <= cuts[j]
    decreases j
  {
    hide Total;
    if i < j {
      assert Share(f, cuts[j - 1], cuts[j], nGroups - (j - 1), nGroups);
      CutsGrow(cuts, f, nGroups, i, j - 1);
    }
  }

  lemma {:induction false} RangeOf(cuts: seq<nat>, f: seq<int>, nGroups: nat, v: nat, m: nat) returns (j: nat)
    requires Ranges(cuts, f, nGroups) && 0 < m < |cuts| && v < cuts[m]
    ensures j < m && cuts[j] <= v < cuts[j + 1]
    decreases m
  {
    hide Share;
    if cuts[m - 1] <= v {
      j := m - 1;
    } else {
      j := RangeOf(cuts, f, nGroups, v, m - 1);
    }
  }

  lemma TotalNone(f: seq<int>)
    ensures Total(f, 0) == 0
  {
  }

  lemma TotalNext(f: seq<int>, m: nat)
    requires m < |f|
    ensures Total(f, m + 1) == Total(f, m) + f[m]
  {
  }

  lemma FirstCosts(len: seq<seq<int>>, f: seq<int>, nGroups: nat, alphaSize: nat)
    requires First(len, f, nGroups, alphaSize)
    ensures Costs(len, nGroups, alphaSize)
  {
    hide Ranges;
    var cuts :| Divided(len, cuts, f, nGroups, alphaSize);
    forall t {:trigger len[t]} | 0 <= t < nGroups
      ensures |len[t]| == alphaSize && forall v :: 0 <= v < alphaSize ==> 0 <= len[t][v] <= 20 {
      assert Marked(len[t], cuts, nGroups - 1 - t, alphaSize);
    }
  }

  /* ---------- one pass over the groups ---------- */

  /** Selector i is the best table for group i, under the lengths len. */
  ghost predicate BestSelectors(len: seq<seq<int>>, nGroups: nat, alphaSize: nat, syms: seq<int>, sel: seq<int>) {
    forall i :: 0 <= i < |sel| ==>
      50 * i < |syms| && Cheapest6(len, nGroups, alphaSize, syms, 50 * i, GroupEnd(i, |syms|), sel[i])
  }

  function GroupEnd(i: nat, n: nat): (e: nat)
    requires 50 * i < n
    ensures 50 * i < e <= n && e <= 50 * i + 50
  {
    if 50 * i + 50 < n then 50 * i + 50 else n
  }

  /** The use counts after k symbols. */
  ghost predicate Counted(rfreq: seq<seq<int>>, syms: seq<int>, sel: seq<int>, k: nat, nGroups: nat, alphaSize: nat) {
    |rfreq| == nGroups && k <= |syms| && (k + 49) / 50 <= |sel| &&
    forall t {:trigger rfreq[t]} :: 0 <= t < nGroups ==> rfreq[t] == Row(syms, sel, k, t, alphaSize)
  }

  lemma CountedStart(rfreq: seq<seq<int>>, syms: seq<int>, nGroups: nat, alphaSize: nat)
    requires |rfreq| == nGroups && forall t {:trigger rfreq[t]} ::
      0 <= t < nGroups ==> rfreq[t] == seq(alphaSize, _ => 0)
    ensures Counted(rfreq, syms, [], 0, nGroups, alphaSize)
  {
    forall t {:trigger rfreq[t]} | 0 <= t < nGroups ensures rfreq[t] == Row(syms, [], 0, t, alphaSize) {
      assert forall v :: 0 <= v < alphaSize ==> Row(syms, [], 0, t, alphaSize)[v] == Uses(syms, [], 0, t, v) == 0;
    }
  }

  /** Giving the next group a table changes no count. */
  lemma CountedMore(rfreq: seq<seq<int>>, syms: seq<int>, sel: seq<int>, bt: int, k: nat, nGroups: nat, alphaSize: nat)
    requires Counted(rfreq, syms, sel, k, nGroups, alphaSize)
    ensures Counted(rfreq, syms, sel + [bt], k, nGroups, alphaSize)
  {
    forall t {:trigger rfreq[t]} | 0 <= t < nGroups ensures rfreq[t] == Row(syms, sel + [bt], k, t, alphaSize) {
      forall v | 0 <= v < alphaSize ensures rfreq[t][v] == Uses(syms, sel + [bt], k, t, v) {
        assert Row(syms, sel, k, t, alphaSize)[v] == Uses(syms, sel, k, t, v);
        UsesSame(syms, sel, sel + [bt], k, t, v);
      }
    }
  }

  /** Symbol k adds one to its own count in the table of its group. */
  lemma CountedStep(rfreq: seq<seq<int>>, syms: seq<int>, sel: seq<int>, k: nat, nGroups: nat, alphaSize: nat)
    requires Counted(rfreq, syms, sel, k, nGroups, alphaSize) && k < |syms| && k / 50 < |sel| &&
      0 <= sel[k / 50] < nGroups
    requires 0 <= syms[k] < alphaSize
    ensures |rfreq| == nGroups && |rfreq[sel[k / 50]]| == alphaSize
    ensures var bt, v := sel[k / 50], syms[k];
      Counted(rfreq[bt := rfreq[bt][v := rfreq[bt][v] + 1]], syms, sel, k + 1, nGroups, alphaSize)
  {
    var bt, v := sel[k / 50], syms[k];
    var r' := rfreq[bt := rfreq[bt][v := rfreq[bt][v] + 1]];
    forall t {:trigger r'[t]} | 0 <= t < nGroups ensures r'[t] == Row(syms, sel, k + 1, t, alphaSize) {
      forall u | 0 <= u < alphaSize ensures |r'[t]| == alphaSize && r'[t][u] == Uses(syms, sel, k + 1, t, u) {
        assert rfreq[t][u] == Row(syms, sel, k, t, alphaSize)[u] == Uses(syms, sel, k, t, u);
      }
    }
  }

  method NoUses(nGroups: nat, alphaSize: nat, ghost syms: seq<int>) returns (rfreq: seq<seq<int>>)
    ensures Counted(rfreq, syms, [], 0, nGroups, alphaSize)
  {
    rfreq := seq(nGroups, _ => seq(alphaSize, _ => 0));
    CountedStart(rfreq, syms, nGroups, alphaSize);
  }

  lemma BestSelectorsMore(len: seq<seq<int>>, nGroups: nat, alphaSize: nat, syms: seq<int>, sel: seq<int>, bt: int)
    requires BestSelectors(len, nGroups, alphaSize, syms, sel) && 50 * |sel| < |syms|
    requires Cheapest6(len, nGroups, alphaSize, syms, 50 * |sel|, GroupEnd(|sel|, |syms|), bt)
    ensures BestSelectors(len, nGroups, alphaSize, syms, sel + [bt]) && 0 <= bt < nGroups
  {
  }

  lemma SymbolIn(syms: seq<int>, alphaSize: nat, i: nat)
    requires InAlphabet(syms, alphaSize) && i < |syms|
    ensures 0 <= syms[i] < alphaSize
  {
  }

  /** Increment the symbol frequencies for the selected table. */
  method CountGroup(words: seq<int>, gs: nat, ge: int, bt: nat, rfreq0: seq<seq<int>>, nGroups: nat, alphaSize: nat,
      ghost syms: seq<int>, ghost sel: seq<int>)
    returns (rfreq: seq<seq<int>>)
    requires BlockWriter.HoldsSyms(words, syms) && InAlphabet(syms, alphaSize) && gs <= ge < |syms| && ge < gs + 50 &&
      gs % 50 == 0
    requires bt < nGroups && |sel| == gs / 50 + 1 && sel[gs / 50] == bt &&
      Counted(rfreq0, syms, sel, gs, nGroups, alphaSize)
    ensures Counted(rfreq, syms, sel, ge + 1, nGroups, alphaSize)
  {
    hide *;
    rfreq := rfreq0;
    var i := gs;
    while i <= ge   // full groups are unrolled in the source when there are six tables
      invariant gs <= i <= ge + 1 && Counted(rfreq, syms, sel, i, nGroups, alphaSize)
    {
      BlockWriter.SymAt(words, syms, i);
      BlockWriter.SameGroup(gs, i);
      SymbolIn(syms, alphaSize, i);
      CountedStep(rfreq, syms, sel, i, nGroups, alphaSize);
      var v := MtfEncoder.Half(words[i / 2], i);
      rfreq := rfreq[bt := rfreq[bt][v := rfreq[bt][v] + 1]];
      i := i + 1;
    }
  }

  /** Give every group of fifty symbols its cheapest table, and count. */
  method AssignGroups(words: seq<int>, nMTF: nat, nGroups: nat, alphaSize: nat, len: seq<seq<int>>,
      selector: array<int>, ghost syms: seq<int>)
    returns (nSelectors: nat, rfreq: seq<seq<int>>)
    requires Costs(len, nGroups, alphaSize) && InAlphabet(syms, alphaSize) && BlockWriter.HoldsSyms(words, syms)
    requires 0 < nMTF == |syms| <= 900_001 && selector.Length == 18002
    modifies selector
    ensures nSelectors == (nMTF + 49) / 50 <= 18002 &&
      BestSelectors(len, nGroups, alphaSize, syms, selector[..nSelectors])
    ensures Counted(rfreq, syms, selector[..nSelectors], nMTF, nGroups, alphaSize)
  {
    hide *;
    rfreq := NoUses(nGroups, alphaSize, syms);
    nSelectors := 0;
    var gs := 0;
    assert selector[..0] == [];
    NoSelectors(len, nGroups, alphaSize, syms);
    while gs < nMTF
      invariant 0 <= gs <= nMTF && 0 <= nSelectors == (gs + 49) / 50 <= 18002 && (gs < nMTF ==> gs == 50 * nSelectors)
      invariant BestSelectors(len, nGroups, alphaSize, syms, selector[..nSelectors])
      invariant Counted(rfreq, syms, selector[..nSelectors], gs, nGroups, alphaSize)
    {
      ghost var sel := selector[..nSelectors];
      var ge := gs + 50 - 1;
      if ge >= nMTF { ge := nMTF - 1; }
      var bt := BestTable(words, gs, ge, nGroups, len, alphaSize, syms);
      EndOfGroup(nSelectors, nMTF, ge);
      BestSelectorsMore(len, nGroups, alphaSize, syms, sel, bt);
      CountedMore(rfreq, syms, sel, bt, gs, nGroups, alphaSize);
      selector[nSelectors] := bt;
      assert selector[..nSelectors + 1] == sel + [bt];
      rfreq := CountGroup(words, gs, ge, bt, rfreq, nGroups, alphaSize, syms, sel + [bt]);
      nSelectors := nSelectors + 1;
      gs := ge + 1;
    }
  }

  lemma EndOfGroup(i: nat, n: nat, ge: int)
    requires 50 * i < n && ge == (if 50 * i + 49 >= n then n - 1 else 50 * i + 49)
    ensures GroupEnd(i, n) == ge + 1 && (50 * i) % 50 == 0 && 50 * i / 50 == i
  {
  }

  lemma NoSelectors(len: seq<seq<int>>, nGroups: nat, alphaSize: nat, syms: seq<int>)
    ensures BestSelectors(len, nGroups, alphaSize, syms, [])
  {
  }

  /* ---------- the tables ---------- */

  /** lens is a cheapest complete code for the counts f, once scaled down as often as it takes to
      get no length over 17. */
  ghost predicate CodeFor(f: seq<int>, lens: seq<int>) {
    exists rounds: nat :: FitsAfter(f, lens, rounds)
  }

  ghost predicate FitsAfter(f: seq<int>, lens: seq<int>, rounds: nat) {
    BestCode(Rounds(Weights(f), rounds), lens, 17) &&
    (forall t :: 0 <= t < rounds ==> Overlong(Rounds(Weights(f), t), 17)) &&
    (Sum(Weights(f), |f|) < Least(18) ==> rounds == 0)
  }

  lemma CodeForIntro(f: seq<int>, lens: seq<int>, rounds: nat)
    requires FitsAfter(f, lens, rounds)
    ensures CodeFor(f, lens)
  {
  }

  /** Such lengths can be sent, and their codes decoded. */
  lemma CodeForKraft(f: seq<int>, lens: seq<int>)
    requires CodeFor(f, lens)
    ensures |lens| == |f| && (forall v :: 0 <= v < |lens| ==> 1 <= lens[v] <= 17) && CanonicalCode.Complete(lens, 17) &&
      CanonicalCode.Kraft(lens, 20)
  {
    var rounds: nat :| FitsAfter(f, lens, rounds);
    CanonicalCode.CompleteUnit(lens, 17, 20);
  }

  lemma CountedRow(rfreq: seq<seq<int>>, syms: seq<int>, sel: seq<int>, k: nat, nGroups: nat, alphaSize: nat, t: nat)
    requires Counted(rfreq, syms, sel, k, nGroups, alphaSize) && t < nGroups && |syms| <= 900_001 && alphaSize <= 258
    ensures |rfreq| == nGroups && rfreq[t] == Row(syms, sel, k, t, alphaSize) && |rfreq[t]| == alphaSize
    ensures (forall v :: 0 <= v < alphaSize ==> rfreq[t][v] >= 0) && Sum(Weights(rfreq[t]), alphaSize) < 0x80_0000
  {
    RowFits(syms, sel, k, t, alphaSize);
    forall v | 0 <= v < alphaSize ensures rfreq[t][v] >= 0 { assert rfreq[t][v] == Uses(syms, sel, k, t, v); }
  }

  lemma CountedSizes(rfreq: seq<seq<int>>, syms: seq<int>, sel: seq<int>, k: nat, nGroups: nat, alphaSize: nat)
    requires Counted(rfreq, syms, sel, k, nGroups, alphaSize)
    ensures |rfreq| == nGroups && forall t {:trigger rfreq[t]} :: 0 <= t < nGroups ==> |rfreq[t]| == alphaSize
  {
  }

  /** The lengths of one table. */
  method CodeRowFor(f: seq<int>, alphaSize: nat) returns (lens: seq<int>)
    requires |f| == alphaSize && 2 <= alphaSize <= 258 && (forall v :: 0 <= v < alphaSize ==> f[v] >= 0) &&
      Sum(Weights(f), alphaSize) < 0x80_0000
    ensures CodeFor(f, lens)
  {
    hide *;
    MaxAlpha();
    var len := new int[alphaSize](_ => 0);
    var freq := new int[alphaSize](v requires 0 <= v < |f| => f[v]);
    assert freq[..alphaSize] == f;
    ghost var rounds := MakeCodeLengths(len, freq, alphaSize, 17);
    lens := len[..];
    assert len[..alphaSize] == lens;
    FitsIntro(f, lens, rounds);
    CodeForIntro(f, lens, rounds);
  }

  lemma MaxAlpha()
    ensures MAX_ALPHA == 258 && MAX_ALPHA_SIZE == 258
  {
  }

  lemma FitsIntro(f: seq<int>, lens: seq<int>, rounds: nat)
    requires BestCode(Rounds(Weights(f), rounds), lens, 17) &&
      (forall t :: 0 <= t < rounds ==> Overlong(Rounds(Weights(f), t), 17))
    requires Sum(Weights(f), |f|) < Least(18) ==> rounds == 0
    ensures FitsAfter(f, lens, rounds)
  {
  }

  /** Every table codes its own use counts. */
  ghost predicate Coding(len: seq<seq<int>>, rfreq: seq<seq<int>>, n: nat) {
    |len| == n <= |rfreq| && forall t {:trigger len[t]} :: 0 <= t < n ==> CodeFor(rfreq[t], len[t])
  }

  lemma CodingStep(len: seq<seq<int>>, rfreq: seq<seq<int>>, n: nat, lens: seq<int>)
    requires Coding(len, rfreq, n) && n < |rfreq| && CodeFor(rfreq[n], lens)
    ensures Coding(len + [lens], rfreq, n + 1)
  {
    hide CodeFor;
  }

  lemma CodingNone(rfreq: seq<seq<int>>)
    ensures Coding([], rfreq, 0)
  {
  }

  lemma CodingCosts(len: seq<seq<int>>, rfreq: seq<seq<int>>, nGroups: nat, alphaSize: nat)
    requires Coding(len, rfreq, nGroups) && 2 <= nGroups <= 6 && 2 <= alphaSize <= MAX_ALPHA
    requires forall t {:trigger rfreq[t]} :: 0 <= t < nGroups ==> |rfreq[t]| == alphaSize
    ensures Costs(len, nGroups, alphaSize)
  {
    forall t {:trigger len[t]} | 0 <= t < nGroups
      ensures |len[t]| == alphaSize && forall v :: 0 <= v < alphaSize ==> 0 <= len[t][v] <= 20 {
      CodeForKraft(rfreq[t], len[t]);
    }
  }

  /** Recompute the tables based on the accumulated frequencies. */
  method CodeTables(rfreq: seq<seq<int>>, nGroups: nat, alphaSize: nat, ghost syms: seq<int>, ghost sel: seq<int>)
      returns (len: seq<seq<int>>)
    requires 2 <= nGroups <= 6 && 2 <= alphaSize <= 258 && |syms| <= 900_001 &&
      Counted(rfreq, syms, sel, |syms|, nGroups, alphaSize)
    ensures Coding(len, rfreq, nGroups) && Costs(len, nGroups, alphaSize)
  {
    hide *;
    MaxAlpha();
    len := [];
    CodingNone(rfreq);
    var t := 0;
    while t < nGroups
      invariant 0 <= t <= nGroups && Coding(len, rfreq, t)
    {
      CountedRow(rfreq, syms, sel, |syms|, nGroups, alphaSize, t);
      var lens := CodeRowFor(rfreq[t], alphaSize);
      CodingStep(len, rfreq, t, lens);
      len := len + [lens];
      t := t + 1;
    }
    CountedSizes(rfreq, syms, sel, |syms|, nGroups, alphaSize);
    CodingCosts(len, rfreq, nGroups, alphaSize);
  }

  /** One pass: selectors sel cheapest under the tables prev, tables len best for the counts under sel. */
  ghost predicate Pass(prev: seq<seq<int>>, len: seq<seq<int>>, sel: seq<int>, nGroups: nat, alphaSize: nat,
      syms: seq<int>) {
    |sel| == (|syms| + 49) / 50 <= 18002 && |len| == nGroups && BestSelectors(prev, nGroups, alphaSize, syms, sel) &&
    forall t {:trigger len[t]} :: 0 <= t < nGroups ==> CodeFor(Row(syms, sel, |syms|, t, alphaSize), len[t])
  }

  /** How often each symbol occurs. */
  ghost function Frequencies(syms: seq<int>, alphaSize: nat): (f: seq<int>)
    ensures |f| == alphaSize && forall v :: 0 <= v < alphaSize ==> f[v] == Count(syms, |syms|, v)
  {
    seq(alphaSize, v requires 0 <= v => Count(syms, |syms|, v))
  }

  /** The passes made so far, from the first tables on: pass i has led from tables[i] to tables[i + 1] and sels[i]. */
  ghost predicate Passes(tables: seq<seq<seq<int>>>, sels: seq<seq<int>>, nGroups: nat, alphaSize: nat,
      syms: seq<int>) {
    |tables| == |sels| + 1 && First(tables[0], Frequencies(syms, alphaSize), nGroups, alphaSize) &&
    forall i, j :: 0 <= i && j == i + 1 < |tables| ==> Pass(tables[i], tables[j], sels[i], nGroups, alphaSize, syms)
  }

  /** The outcome: as many tables as the symbols are worth, after four passes. */
  ghost predicate Chosen(len: seq<seq<int>>, sel: seq<int>, nGroups: nat, alphaSize: nat, syms: seq<int>) {
    nGroups == TablesUsed(|syms|) && exists tables, sels ::
      Passes(tables, sels, nGroups, alphaSize, syms) && |sels| == 4 && tables[4] == len && sels[3] == sel
  }

  /** The last pass, all that the bits of a block need. */
  lemma ChosenParts(len: seq<seq<int>>, sel: seq<int>, nGroups: nat, alphaSize: nat, syms: seq<int>)
      returns (prev: seq<seq<int>>)
    requires Chosen(len, sel, nGroups, alphaSize, syms)
    ensures 2 <= nGroups <= 6 && Pass(prev, len, sel, nGroups, alphaSize, syms)
  {
    hide Pass;
    hide First;
    hide Reached;
    var tables, sels :|
      Passes(tables, sels, nGroups, alphaSize, syms) && |sels| == 4 && tables[4] == len && sels[3] == sel;
    prev := tables[3];
  }

  lemma PassIntro(prev: seq<seq<int>>, rfreq: seq<seq<int>>, len: seq<seq<int>>, sel: seq<int>, nGroups: nat,
      alphaSize: nat, syms: seq<int>)
    requires |sel| == (|syms| + 49) / 50 <= 18002 && BestSelectors(prev, nGroups, alphaSize, syms, sel)
    requires Counted(rfreq, syms, sel, |syms|, nGroups, alphaSize) && Coding(len, rfreq, nGroups)
    ensures Pass(prev, len, sel, nGroups, alphaSize, syms)
  {
    hide BestSelectors;
    hide CodeFor;
    forall t {:trigger len[t]} | 0 <= t < nGroups ensures CodeFor(Row(syms, sel, |syms|, t, alphaSize), len[t]) {
      assert rfreq[t] == Row(syms, sel, |syms|, t, alphaSize);
    }
  }

  lemma PassesNone(len: seq<seq<int>>, f: seq<int>, nGroups: nat, alphaSize: nat, syms: seq<int>)
    requires First(len, f, nGroups, alphaSize) && |f| == alphaSize &&
      forall v :: 0 <= v < alphaSize ==> f[v] == Count(syms, |syms|, v)
    ensures Passes([len], [], nGroups, alphaSize, syms)
  {
    hide First;
    assert f == Frequencies(syms, alphaSize);
  }

  lemma PassesNext(tables: seq<seq<seq<int>>>, sels: seq<seq<int>>, len: seq<seq<int>>, sel: seq<int>, nGroups: nat,
      alphaSize: nat, syms: seq<int>)
    requires Passes(tables, sels, nGroups, alphaSize, syms) && |tables| > 0
    requires Pass(tables[|tables| - 1], len, sel, nGroups, alphaSize, syms)
    ensures Passes(tables + [len], sels + [sel], nGroups, alphaSize, syms)
  {
    hide Pass;
    hide First;
    var t, s := tables + [len], sels + [sel];
    forall i, j | 0 <= i && j == i + 1 < |t| ensures Pass(t[i], t[j], s[i], nGroups, alphaSize, syms) {
      assert t[i] == tables[i];
      if j < |tables| { assert t[j] == tables[j] && s[i] == sels[i]; }
    }
    assert t[0] == tables[0];
  }

  lemma ChosenIntro(tables: seq<seq<seq<int>>>, sels: seq<seq<int>>, nGroups: nat, alphaSize: nat, syms: seq<int>)
    requires nGroups == TablesUsed(|syms|) && Passes(tables, sels, nGroups, alphaSize, syms) && |sels| == 4
    ensures |tables| == 5 && Chosen(tables[4], sels[3], nGroups, alphaSize, syms)
  {
    hide Pass;
    hide First;
  }

  lemma Used(n: int)
    ensures TablesUsed(n) ==
      if n < 200 then 2 else if n < 600 then 3 else if n < 1200 then 4 else if n < 2400 then 5 else 6
    ensures 2 <= TablesUsed(n) <= 6
  {
    assert Reached([200, 600, 1200, 2400], n, 1) == if n >= 200 then 1 else 0;
    assert Reached([200, 600, 1200, 2400], n, 2) ==
      Reached([200, 600, 1200, 2400], n, 1) + if n >= 600 then 1 else 0;
    assert Reached([200, 600, 1200, 2400], n, 3) ==
      Reached([200, 600, 1200, 2400], n, 2) + if n >= 1200 then 1 else 0;
  }

  /** Each symbol counted under its own number: together they are all symbols. */
  lemma {:induction false} CountsTotal(s: seq<int>, i: nat, f: seq<int>, m: nat)
    requires i <= |s| && (forall k :: 0 <= k < |s| ==> 0 <= s[k] < m) && m == |f| && forall v ::
      0 <= v < m ==> f[v] == Count(s, i, v)
    ensures Total(f, m) == i
    decreases i
  {
    if i == 0 {
      TotalZero(f, m);
    } else {
      var x := s[i - 1];
      var g := f[x := f[x] - 1];
      forall v | 0 <= v < m ensures g[v] == Count(s, i - 1, v) {
      }
      CountsTotal(s, i - 1, g, m);
      TotalBump(g, m, x);
      assert g[x := g[x] + 1] == f;
    }
  }

  lemma {:induction false} TotalBump(f: seq<int>, m: nat, x: nat)
    requires m <= |f| && x < |f|
    ensures Total(f[x := f[x] + 1], m) == Total(f, m) + (if x < m then 1 else 0)
    decreases m
  {
    if m > 0 { TotalBump(f, m - 1, x); }
  }

  lemma FrequenciesSum(syms: seq<int>, f: seq<int>, alphaSize: nat)
    requires InAlphabet(syms, alphaSize) && |f| == alphaSize &&
      forall v :: 0 <= v < alphaSize ==> f[v] == Count(syms, |syms|, v)
    ensures Total(f, alphaSize) == |syms| && forall v :: 0 <= v < alphaSize ==> f[v] >= 0
  {
    CountsTotal(syms, |syms|, f, alphaSize);
  }

  /** The choice of sendMTFValues: four passes over the symbols, each giving every group its cheapest
      table and then every table a cheapest code for what it has been given. */
  method ChooseTables(words: seq<int>, nMTF: nat, mtfFreq: seq<int>, alphaSize: nat, selector: array<int>,
      ghost syms: seq<int>)
    returns (len: seq<seq<int>>, nGroups: nat, nSelectors: nat)
    requires 2 <= alphaSize <= 258 && |mtfFreq| == alphaSize && mtfFreq[alphaSize - 1] > 0
    requires forall v :: 0 <= v < alphaSize ==> mtfFreq[v] == Count(syms, |syms|, v)
    requires InAlphabet(syms, alphaSize) && BlockWriter.HoldsSyms(words, syms) && 0 < nMTF == |syms| <= 900_001 &&
      selector.Length == 18002
    modifies selector
    ensures nSelectors <= 18002 && Chosen(len, selector[..nSelectors], nGroups, alphaSize, syms)
  {
    hide *;
    MaxAlpha();
    Used(nMTF);
    Iters();
    FrequenciesSum(syms, mtfFreq, alphaSize);
    nGroups := if nMTF < 200 then 2 else if nMTF < 600 then 3 else if nMTF < 1200 then 4 else if nMTF < 2400 then 5
      else 6;
    len := InitialTables(mtfFreq, nMTF, nGroups, alphaSize);
    FirstCosts(len, mtfFreq, nGroups, alphaSize);
    nSelectors := 0;
    ghost var tables, sels := [len], [];
    PassesNone(len, mtfFreq, nGroups, alphaSize, syms);
    var iter := 0;
    while iter < N_ITERS
      invariant 0 <= iter <= N_ITERS && Costs(len, nGroups, alphaSize) && nSelectors <= 18002
      invariant Passes(tables, sels, nGroups, alphaSize, syms) && |tables| == iter + 1 && tables[iter] == len
      invariant |sels| == iter && (iter > 0 ==> sels[iter - 1] == selector[..nSelectors])
    {
      var rfreq;
      ghost var prev := len;
      nSelectors, rfreq := AssignGroups(words, nMTF, nGroups, alphaSize, len, selector, syms);
      ghost var sel := selector[..nSelectors];
      len := CodeTables(rfreq, nGroups, alphaSize, syms, sel);
      assert selector[..nSelectors] == sel;
      PassIntro(prev, rfreq, len, sel, nGroups, alphaSize, syms);
      PassesNext(tables, sels, len, sel, nGroups, alphaSize, syms);
      tables, sels := tables + [len], sels + [sel];
      iter := iter + 1;
    }
    ChosenIntro(tables, sels, nGroups, alphaSize, syms);
  }

  lemma Iters()
    ensures N_ITERS == 4
  {
  }
}
