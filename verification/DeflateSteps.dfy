/** The choices of deflate's matchers: what every step must have found, and what it may tell, in terms of the
    input alone. */
module DeflateSteps {
  import opened ByteSeq
  import opened DeflateHash
  import opened DeflateChains
  import opened DeflateMatch
  import opened DeflateWindow
  import T = InflateWindow

  datatype Strategy = Default | Filtered | HuffmanOnly | Rle | Fixed
  datatype Func = Fast | Slow | RunLength | Huffman

  /** What does not change: the hash, the greatest distance, the matcher, and its limit for lazy matches. */
  datatype Rules = Rules(m: bv32, s: bv32, reach: int, func: Func, filtered: bool, maxLazy: nat)

  /** One step of a matcher, at the string at `at`, of which ahead bytes are known. The window begins at base; before
      and after the step the strings ins and after are in the hash table. The step before found a match of before
      bytes at prior, this one one of len at found; waiting says that the byte before is still to be told. The step
      tells the tokens from first to before last. */
  datatype Step = Step(at: nat, ahead: nat, base: int, ins: set<int>, after: set<int>, before: nat, len: nat,
                       waiting: bool, first: nat, last: nat, prior: int, found: int)

  /** The hash of the string at p, if there are three bytes. */
  ghost function HashAt(R: Rules, d: seq<int>, p: int): int {
    if Proper(R.m, R.s) && 0 <= p && p + 2 < |d| && 0 <= d[p] < 256 && 0 <= d[p + 1] < 256 && 0 <= d[p + 2] < 256
    then KeyOf(R.m, R.s, d[p], d[p + 1], d[p + 2]) else -1
  }

  /** q is the latest string inserted that has the hash of the one at p. */
  ghost predicate Latest(R: Rules, d: seq<int>, ins: set<int>, base: int, q: int, p: int) {
    q in ins && base < q < p && HashAt(R, d, q) == HashAt(R, d, p) &&
    forall r :: r in ins && r > q ==> HashAt(R, d, r) != HashAt(R, d, p)
  }

  /** The string at q stands first on the chain, is not too far back, and agrees on three bytes. */
  ghost predicate First(R: Rules, d: seq<int>, st: Step, q: int) {
    st.ahead >= 3 && Latest(R, d, st.ins, st.base, q, st.at) && st.at - q <= R.reach && Same(d, q, st.at, 3)
  }

  /** len is not less than any length on which the strings at p and q agree. */
  ghost predicate AsLong(d: seq<int>, q: int, p: int, ahead: nat, len: nat) {
    forall k: nat :: k <= 258 && k <= ahead && Same(d, q, p, k) ==> k <= len
  }

  ghost predicate Entered(s: set<int>, from: int, to: int) {
    forall x :: from <= x < to ==> x in s
  }

  ghost predicate EnteredIn(s: set<int>, from: int, to: int, n: int) {
    forall x :: from <= x < to && x + 2 < n ==> x in s
  }

  /** deflate_fast: if the first on the chain agrees, what is told is a match at least as long. The string is
      inserted, and with it the rest of a short match. */
  ghost predicate Greedy(R: Rules, d: seq<int>, t: T.Token, st: Step) {
    (forall q :: First(R, d, st, q) ==> t.Copy? && t.len >= 3 && AsLong(d, q, st.at, st.ahead, t.len)) &&
    st.ins <= st.after &&
    (st.ahead >= 3 ==> st.at in st.after) &&
    (t.Copy? && t.len <= R.maxLazy && st.ahead - t.len >= 3 ==> Entered(st.after, st.at, st.at + t.len))
  }

  /** The match found at the step before is told now. */
  ghost predicate Taken(st: Step) {
    st.before >= 3 && st.len <= st.before
  }

  /** What a short match must be for deflate_slow to ignore it. */
  ghost predicate TooShort(R: Rules, st: Step, q: int, k: nat) {
    (R.filtered && k <= 5) || (k <= 3 && (st.at - q > 4096 || st.before > 2 || st.ahead == 3))
  }

  ghost predicate Enough(R: Rules, d: seq<int>, st: Step, q: int) {
    forall k: nat :: 3 <= k <= 258 && k <= st.ahead && Same(d, q, st.at, k) ==>
      k <= st.len || (st.len == 2 && TooShort(R, st, q, k))
  }

  /** deflate_slow looks for a match unless the one found before is long enough; one that is not ignored is at least
      as long as the first on the chain agrees, and neither too short for the strategy nor too far for three bytes. */
  ghost predicate Looking(R: Rules, d: seq<int>, st: Step) {
    st.len >= 2 && (st.before >= R.maxLazy ==> st.len == 2) && (R.filtered ==> st.len == 2 || st.len > 5) &&
    (st.len == 3 ==> st.at - st.found <= 4096) &&
    (st.before < R.maxLazy ==> forall q :: First(R, d, st, q) ==> Enough(R, d, st, q))
  }

  /** A match is told if the next string has none that is longer; otherwise its first byte is a literal. */
  ghost predicate Lazy(R: Rules, d: seq<int>, ts: seq<T.Token>, st: Step) {
    Looking(R, d, st) && st.ins <= st.after && (st.ahead >= 3 ==> st.at in st.after) &&
    if Taken(st) then
      |ts| == 1 && ts[0] == T.Copy(st.before, st.at - 1 - st.prior) &&
      EnteredIn(st.after, st.at, st.at - 1 + st.before, |d|)
    else if st.waiting then |ts| == 1 && ts[0].Literal?
    else ts == []
  }

  /** deflate_rle: a match if the byte before comes three times more, and then as long as it comes. */
  ghost predicate Repetition(d: seq<int>, t: T.Token, st: Step) {
    1 <= st.at + st.ahead <= |d| && (st.ahead > 0 ==> st.at < |d|) &&
    if 0 <= st.base < st.at && st.ahead >= 3 && d[st.at] == d[st.at - 1] && d[st.at + 1] == d[st.at - 1] &&
      d[st.at + 2] == d[st.at - 1]
    then t.Copy? && t.dist == 1 && RunOf(d, st.at, st.ahead, t.len)
    else t.Literal?
  }

  /** The byte before p comes n times more, and then another, or there is no room for more. */
  ghost predicate RunOf(d: seq<int>, p: nat, ahead: nat, n: int) {
    0 < p && 0 <= n <= 258 && n <= ahead && p + ahead <= |d| && (forall i :: p <= i < p + n ==> d[i] == d[p - 1]) &&
    (n == 258 || n == ahead || d[p + n] != d[p - 1])
  }

  ghost predicate Rule(R: Rules, d: seq<int>, ts: seq<T.Token>, st: Step) {
    match R.func
    case Fast => |ts| == 1 && Greedy(R, d, ts[0], st)
    case Slow => Lazy(R, d, ts, st)
    case RunLength => |ts| == 1 && Repetition(d, ts[0], st)
    case Huffman => |ts| == 1 && ts[0].Literal?
  }

  /** The step was made by the rules, with the input known then. */
  ghost predicate Right(R: Rules, data: seq<int>, tokens: seq<T.Token>, st: Step) {
    st.at + st.ahead <= |data| && st.first <= st.last <= |tokens| &&
    Rule(R, data[..st.at + st.ahead], tokens[st.first..st.last], st)
  }

  /** What a step of deflate_slow leaves behind: the length found, and whether a byte is still to be told. */
  ghost function LeftLen(st: Step): nat { if Taken(st) || st.ahead == 0 then 2 else st.len }

  ghost predicate LeftWaiting(st: Step) { !Taken(st) && st.ahead > 0 }

  /** Each step goes on where the one before stopped. */
  ghost predicate Follows(R: Rules, st: Step, next: Step) {
    next.first == st.last &&
    (R.func.Slow? ==>
      next.before == LeftLen(st) && next.waiting == LeftWaiting(st) && (next.before >= 3 ==> next.prior == st.found))
  }

  ghost predicate Opens(R: Rules, st: Step) {
    st.first == 0 && (R.func.Slow? ==> st.before == 2 && !st.waiting)
  }

  ghost predicate Chained2(R: Rules, steps: seq<Step>) {
    (steps != [] ==> Opens(R, steps[0])) &&
    forall i, j :: 0 <= i && j == i + 1 < |steps| ==> Follows(R, steps[i], steps[j])
  }

  /** Since the hash table was last cleared, before step number epoch, nothing has been lost from it. */
  ghost predicate Growing(steps: seq<Step>, epoch: nat, ins: set<int>) {
    epoch <= |steps| && (forall j :: epoch <= j < |steps| ==> steps[j].after <= ins) &&
    forall i, j :: epoch <= i < j < |steps| ==> steps[i].after <= steps[j].ins
  }

  /** All tokens come from steps made by the rules, one after the other. */
  ghost predicate Logged(R: Rules, data: seq<int>, tokens: seq<T.Token>, steps: seq<Step>) {
    (forall j :: 0 <= j < |steps| ==> Right(R, data, tokens, steps[j])) && Chained2(R, steps) &&
    |tokens| == if steps == [] then 0 else steps[|steps| - 1].last
  }

  ghost function LastLen(steps: seq<Step>): nat { if steps == [] then 2 else LeftLen(steps[|steps| - 1]) }

  ghost function LastFound(steps: seq<Step>): int { if steps == [] then 0 else steps[|steps| - 1].found }

  ghost predicate LastWaiting(steps: seq<Step>) { steps != [] && LeftWaiting(steps[|steps| - 1]) }

  /** The steps so far, and the state they have left behind. */
  ghost predicate LogOf(R: Rules, data: seq<int>, tokens: seq<T.Token>, steps: seq<Step>, epoch: nat, ins: set<int>,
      len: nat, waiting: bool, found: int) {
    Logged(R, data, tokens, steps) && Growing(steps, epoch, ins) &&
    (R.func.Slow? ==>
      len == LastLen(steps) && waiting == LastWaiting(steps) && (len >= 3 ==> found == LastFound(steps)))
  }

  lemma LogNone(R: Rules)
    ensures LogOf(R, [], [], [], 0, {}, 2, false, 0)
  {
  }

  lemma LogGrows(R: Rules, data: seq<int>, tokens: seq<T.Token>, steps: seq<Step>, epoch: nat, ins: set<int>,
      len: nat, waiting: bool, found: int, data': seq<int>, ins': set<int>)
    requires LogOf(R, data, tokens, steps, epoch, ins, len, waiting, found) && data <= data' && ins <= ins'
    ensures LogOf(R, data', tokens, steps, epoch, ins', len, waiting, found)
  {
    hide Logged;
    hide LastLen;
    hide LastFound;
    hide LastWaiting;
    LoggedGrows(R, data, tokens, steps, data');
  }

  lemma LogMore(R: Rules, data: seq<int>, tokens: seq<T.Token>, steps: seq<Step>, epoch: nat, ins: set<int>,
      len: nat, waiting: bool, found: int, ts: seq<T.Token>, st: Step, len': nat, waiting': bool, found': int)
    requires LogOf(R, data, tokens, steps, epoch, ins, len, waiting, found)
    requires st.first == |tokens| && st.last == |tokens| + |ts| && st.at + st.ahead == |data| && Rule(R, data, ts, st)
    requires st.ins == ins && st.ins <= st.after
    requires R.func.Slow? ==>
      st.before == len && st.waiting == waiting && len' == LeftLen(st) && waiting' == LeftWaiting(st) &&
      (len >= 3 ==> st.prior == found) && found' == st.found
    ensures LogOf(R, data, tokens + ts, steps + [st], epoch, st.after, len', waiting', found')
  {
    hide Rule;
    hide Logged;
    hide Growing;
    hide LeftLen;
    hide LeftWaiting;
    LoggedMore(R, data, tokens, steps, ts, st);
    GrowingMore(steps, epoch, ins, st, st.after);
  }

  lemma LogAfresh(R: Rules, data: seq<int>, tokens: seq<T.Token>, steps: seq<Step>, epoch: nat, ins: set<int>,
      len: nat, waiting: bool, found: int)
    requires LogOf(R, data, tokens, steps, epoch, ins, len, waiting, found)
    ensures LogOf(R, data, tokens, steps, |steps|, {}, len, waiting, found)
  {
    hide Logged;
    hide LastLen;
    hide LastFound;
    hide LastWaiting;
  }

  lemma RightStill(R: Rules, data: seq<int>, tokens: seq<T.Token>, st: Step, data': seq<int>, tokens': seq<T.Token>)
    requires Right(R, data, tokens, st) && data <= data' && tokens <= tokens'
    ensures Right(R, data', tokens', st)
  {
    hide Rule;
    assert data'[..st.at + st.ahead] == data[..st.at + st.ahead];
    assert tokens'[st.first..st.last] == tokens[st.first..st.last];
  }

  /** More input makes no difference to the steps made. */
  lemma LoggedGrows(R: Rules, data: seq<int>, tokens: seq<T.Token>, steps: seq<Step>, data': seq<int>)
    requires Logged(R, data, tokens, steps) && data <= data'
    ensures Logged(R, data', tokens, steps)
  {
    hide Right;
    hide Chained2;
    forall j | 0 <= j < |steps| ensures Right(R, data', tokens, steps[j]) {
      RightStill(R, data, tokens, steps[j], data', tokens);
    }
  }

  /** The next step. */
  lemma LoggedMore(R: Rules, data: seq<int>, tokens: seq<T.Token>, steps: seq<Step>, ts: seq<T.Token>, st: Step)
    requires Logged(R, data, tokens, steps) && st.first == |tokens| && st.last == |tokens| + |ts|
    requires st.at + st.ahead == |data| && Rule(R, data, ts, st)
    requires R.func.Slow? ==>
      st.before == (if steps == [] then 2 else LeftLen(steps[|steps| - 1])) &&
      st.waiting == (steps != [] && LeftWaiting(steps[|steps| - 1])) &&
      (steps != [] && st.before >= 3 ==> st.prior == steps[|steps| - 1].found)
    ensures Logged(R, data, tokens + ts, steps + [st])
  {
    hide Rule;
    hide LeftLen;
    hide LeftWaiting;
    var steps', tokens' := steps + [st], tokens + ts;
    forall j | 0 <= j < |steps'| ensures Right(R, data, tokens', steps'[j]) {
      if j < |steps| {
        RightStill(R, data, tokens, steps[j], data, tokens');
      } else {
        assert data[..st.at + st.ahead] == data && tokens'[st.first..st.last] == ts;
      }
    }
    forall i, j | 0 <= i && j == i + 1 < |steps'| ensures Follows(R, steps'[i], steps'[j]) {
      if j < |steps| { assert steps'[i] == steps[i] && steps'[j] == steps[j]; }
    }
  }

  lemma GrowingMore(steps: seq<Step>, epoch: nat, ins: set<int>, st: Step, ins': set<int>)
    requires Growing(steps, epoch, ins) && st.ins == ins && st.after == ins' && ins <= ins'
    ensures Growing(steps + [st], epoch, ins')
  {
  }

  /* ---------- the heads of the chains ---------- */

  /** Each head is the latest string inserted with its hash, and every string inserted that is in the window is on
      the chain from there, or newer than it. */
  ghost predicate Newest(v: View, ins: set<int>, base: int)
    requires Shape(v)
  {
    (forall p :: p in ins ==> Heads(v, base, p)) && forall h: nat :: h < |v.head| ==> HeadIn(v, ins, base, h)
  }

  ghost predicate Heads(v: View, base: int, p: int)
    requires Shape(v)
  {
    p + 2 < base + v.end && (p > base ==> v.head[Key(v, p - base)] >= p - base)
  }

  ghost predicate HeadIn(v: View, ins: set<int>, base: int, h: nat)
    requires Shape(v) && h < |v.head|
  {
    v.head[h] > 0 ==> v.head[h] + base in ins
  }

  lemma NewestNone(v: View, base: int)
    requires Shape(v) && forall h :: 0 <= h < |v.head| ==> v.head[h] == 0
    ensures Newest(v, {}, base)
  {
    hide Shape;
  }

  lemma NewestInsert(v: View, ins: set<int>, base: int, str: nat, top: int)
    requires Shape(v) && Newest(v, ins, base) && str + 2 < v.end && top <= str && Chains(v, top)
    ensures Shape(Inserted(v, str)) && Newest(Inserted(v, str), ins + {base + str}, base)
  {
    hide Key;
    hide Chains;
    hide Shape;
    hide Inserted;
    hide Heads;
    hide HeadIn;
    InsertedShape(v, str);
    var v', ins' := Inserted(v, str), ins + {base + str};
    InsertedIs(v, str);
    forall p {:trigger p in ins'} | p in ins' ensures Heads(v', base, p) {
      if p in ins {
        HeadsInsert(v, base, str, top, p);
      } else {
        HeadsNew(v, base, str);
      }
    }
    forall h: nat | h < |v'.head| ensures HeadIn(v', ins', base, h) {
      assert HeadIn(v, ins, base, h);
      HeadInInsert(v, ins, base, str, h);
    }
  }

  lemma HeadsNew(v: View, base: int, str: nat)
    requires Shape(v) && str + 2 < v.end
    ensures Shape(Inserted(v, str)) && Heads(Inserted(v, str), base, base + str)
  {
    hide KeyOf;
    InsertedShape(v, str);
  }

  lemma HeadsInsert(v: View, base: int, str: nat, top: int, p: int)
    requires Shape(v) && Heads(v, base, p) && str + 2 < v.end && top <= str && Chains(v, top)
    ensures Shape(Inserted(v, str)) && Heads(Inserted(v, str), base, p)
  {
    hide Key;
    hide Shape;
    hide Chains;
    InsertedShape(v, str);
    InsertedIs(v, str);
    if p > base {
      ShapeParts(v);
      assert Key(Inserted(v, str), p - base) == Key(v, p - base);
      if Key(v, p - base) == Key(v, str) { HeadBelow(v, Key(v, str), top); }
    }
  }

  lemma HeadInInsert(v: View, ins: set<int>, base: int, str: nat, h: nat)
    requires Shape(v) && str + 2 < v.end && h < |v.head| && HeadIn(v, ins, base, h)
    ensures Shape(Inserted(v, str)) && HeadIn(Inserted(v, str), ins + {base + str}, base, h)
  {
    hide Key;
    hide Shape;
    InsertedShape(v, str);
    InsertedIs(v, str);
  }

  /** Nothing on a chain is later than the last string inserted. */
  lemma HeadBelow(v: View, h: nat, top: int)
    requires Chains(v, top) && h < |v.head|
    ensures Shape(v) && (v.head[h] == 0 || v.head[h] < top)
  {
    hide Key;
    Start(v, h, top);
    if v.head[h] != 0 { LinkBelow(v, v.head[h], v.end, h, top); }
  }

  lemma NewestGrow(v: View, ins: set<int>, base: int, w: seq<int>, end: nat)
    requires Shape(v) && |w| == |v.w| && v.end <= end <= |w| && w[..v.end] == v.w[..v.end] && AreBytes(w)
    requires Newest(v, ins, base)
    ensures Shape(v.(w := w, end := end)) && Newest(v.(w := w, end := end), ins, base)
  {
    hide Key;
    hide Shape;
    hide Heads;
    hide HeadIn;
    GrowShape(v, w, end);
    var v' := v.(w := w, end := end);
    forall p {:trigger p in ins} | p in ins ensures Heads(v', base, p) {
      HeadsGrow(v, base, w, end, p);
    }
    forall h: nat | h < |v'.head| ensures HeadIn(v', ins, base, h) {
      assert HeadIn(v, ins, base, h);
      HeadInGrow(v, ins, base, w, end, h);
    }
  }

  lemma HeadsGrow(v: View, base: int, w: seq<int>, end: nat, p: int)
    requires Shape(v) && |w| == |v.w| && v.end <= end <= |w| && w[..v.end] == v.w[..v.end] && AreBytes(w)
    requires Heads(v, base, p)
    ensures Shape(v.(w := w, end := end)) && Heads(v.(w := w, end := end), base, p)
  {
    hide Key;
    hide Shape;
    GrowShape(v, w, end);
    if p > base {
      ShapeParts(v);
      assert Key(v.(w := w, end := end), p - base) == Key(v, p - base);
    }
  }

  lemma HeadInGrow(v: View, ins: set<int>, base: int, w: seq<int>, end: nat, h: nat)
    requires Shape(v) && |w| == |v.w| && v.end <= end <= |w| && w[..v.end] == v.w[..v.end] && AreBytes(w)
    requires h < |v.head| && HeadIn(v, ins, base, h)
    ensures Shape(v.(w := w, end := end)) && HeadIn(v.(w := w, end := end), ins, base, h)
  {
    hide Key;
    hide Shape;
    GrowShape(v, w, end);
  }

  lemma NewestSlid(v: View, ins: set<int>, base: int)
    requires Shape(v) && v.end >= v.wsize && Newest(v, ins, base)
    ensures Shape(Slid(v)) && Newest(Slid(v), ins, base + v.wsize)
  {
    hide Key;
    hide Shape;
    hide Slid;
    hide Heads;
    hide HeadIn;
    SlidShape(v);
    SlidIs(v);
    var v', base' := Slid(v), base + v.wsize;
    forall p {:trigger p in ins} | p in ins ensures Heads(v', base', p) {
      HeadsSlid(v, base, p);
    }
    forall h: nat | h < |v'.head| ensures HeadIn(v', ins, base', h) {
      assert HeadIn(v, ins, base, h);
      HeadInSlid(v, ins, base, h);
    }
  }

  lemma HeadsSlid(v: View, base: int, p: int)
    requires Shape(v) && v.end >= v.wsize && Heads(v, base, p)
    ensures Shape(Slid(v)) && Heads(Slid(v), base + v.wsize, p)
  {
    hide Key;
    hide Shape;
    hide Slid;
    SlidShape(v);
    SlidIs(v);
    if p > base + v.wsize {
      ShapeParts(v);
      assert Key(Slid(v), p - base - v.wsize) == Key(v, p - base);
    }
  }

  lemma HeadInSlid(v: View, ins: set<int>, base: int, h: nat)
    requires Shape(v) && v.end >= v.wsize && h < |v.head| && HeadIn(v, ins, base, h)
    ensures Shape(Slid(v)) && h < |Slid(v).head| && HeadIn(Slid(v), ins, base + v.wsize, h)
  {
    hide Shape;
    hide Slid;
    SlidShape(v);
    SlidIs(v);
  }

  /** What the head of the chain must be for the string at p, whatever stands there. */
  ghost predicate HeadFor(R: Rules, d: seq<int>, ins: set<int>, base: int, p: int, head: int) {
    forall q :: Stands(R, d, ins, base, q, p) ==> head == q - base
  }

  ghost predicate Stands(R: Rules, d: seq<int>, ins: set<int>, base: int, q: int, p: int) {
    Latest(R, d, ins, base, q, p) && Same(d, q, p, 3)
  }

  lemma KeyIsHash(R: Rules, v: View, data: seq<int>, p: int)
    requires Shape(v) && R.m == v.m && R.s == v.s && Held(v.w, data, v.end) && 0 <= p && p + 2 < v.end
    ensures Key(v, p) == HashAt(R, data, |data| - v.end + p)
  {
    hide KeyOf;
    hide Proper;
    hide Held;
    HeldAt(v.w, data, v.end, p);
    HeldAt(v.w, data, v.end, p + 1);
    HeldAt(v.w, data, v.end, p + 2);
    HeldBounds(v.w, data, v.end);
  }

  lemma HeldBounds(w: seq<int>, data: seq<int>, end: nat)
    requires Held(w, data, end)
    ensures end <= |data| && end <= |w|
  {
  }

  lemma HeadForIs(R: Rules, v: View, ins: set<int>, data: seq<int>, p: nat, top: int)
    requires Chains(v, top) && Shape(v) && R.m == v.m && R.s == v.s && Held(v.w, data, v.end) && p + 2 < v.end
    requires Newest(v, ins, |data| - v.end)
    ensures HeadFor(R, data, ins, |data| - v.end, |data| - v.end + p, v.head[Key(v, p)])
  {
    hide *;
    ShapeParts(v);
    var base, at, head := |data| - v.end, |data| - v.end + p, v.head[Key(v, p)];
    forall q | Stands(R, data, ins, base, q, at) ensures head == q - base {
      HeadStands(R, v, ins, data, p, top, q);
    }
    HeadForIntro(R, data, ins, base, at, head);
  }

  lemma HeadForIntro(R: Rules, d: seq<int>, ins: set<int>, base: int, p: int, head: int)
    requires forall q :: Stands(R, d, ins, base, q, p) ==> head == q - base
    ensures HeadFor(R, d, ins, base, p, head)
  {
    hide Stands;
  }

  lemma LatestParts(R: Rules, d: seq<int>, ins: set<int>, base: int, q: int, p: int, r: int)
    requires Latest(R, d, ins, base, q, p)
    ensures q in ins && base < q < p && HashAt(R, d, q) == HashAt(R, d, p)
    ensures r in ins && r > q ==> HashAt(R, d, r) != HashAt(R, d, p)
  {
    hide HashAt;
  }

  lemma NewestAt(v: View, ins: set<int>, base: int, p: int, h: nat)
    requires Shape(v) && Newest(v, ins, base) && h < |v.head|
    ensures p in ins ==> p + 2 < base + v.end
    ensures p in ins && base < p && p - base + 2 < |v.w| ==> v.head[Key(v, p - base)] >= p - base
    ensures v.head[h] > 0 ==> v.head[h] + base in ins
  {
    hide Key;
    hide Shape;
    assert HeadIn(v, ins, base, h);
    if p in ins { assert Heads(v, base, p); }
  }

  lemma HeadStands(R: Rules, v: View, ins: set<int>, data: seq<int>, p: nat, top: int, q: int)
    requires Chains(v, top) && Shape(v) && R.m == v.m && R.s == v.s && Held(v.w, data, v.end) && p + 2 < v.end
    requires Newest(v, ins, |data| - v.end) && Stands(R, data, ins, |data| - v.end, q, |data| - v.end + p)
    ensures v.head[Key(v, p)] == q - (|data| - v.end)
  {
    hide *;
    ShapeParts(v);
    var base := |data| - v.end;
    var h := Key(v, p);
    StandsParts(R, data, ins, base, q, base + p);
    LatestParts(R, data, ins, base, q, base + p, v.head[h] + base);
    NewestAt(v, ins, base, q, h);
    KeyIsHash(R, v, data, p);
    KeyIsHash(R, v, data, q - base);
    HeadKey(v, h, top);
    KeyIsHash(R, v, data, v.head[h]);
  }

  lemma StandsParts(R: Rules, d: seq<int>, ins: set<int>, base: int, q: int, p: int)
    requires Stands(R, d, ins, base, q, p)
    ensures Latest(R, d, ins, base, q, p) && Same(d, q, p, 3)
  {
    hide Latest;
    hide Same;
  }

  lemma HeadKey(v: View, h: nat, top: int)
    requires Chains(v, top) && h < |v.head| && v.head[h] != 0
    ensures Shape(v) && 0 < v.head[h] && v.head[h] + 2 < v.end && Key(v, v.head[h]) == h
  {
    hide Key;
    Start(v, h, top);
  }

  /* ---------- one step ---------- */

  lemma EnteredMore(s: set<int>, from: int, to: int)
    requires Entered(s, from, to)
    ensures Entered(s + {to}, from, to + 1)
  {
  }

  lemma EnteredNone(s: set<int>, from: int)
    ensures Entered(s, from, from)
  {
  }

  lemma EnteredInMore(s: set<int>, from: int, to: int, n: int)
    requires EnteredIn(s, from, to, n)
    ensures EnteredIn(s + {to}, from, to + 1, n) && (to + 2 >= n ==> EnteredIn(s, from, to + 1, n))
  {
  }

  lemma EnteredInOne(s: set<int>, from: int, to: int, n: int)
    requires EnteredIn(s, from + 1, to, n) && (from + 2 < n ==> from in s)
    ensures EnteredIn(s, from, to, n)
  {
  }

  lemma EnteredInNone(s: set<int>, from: int, n: int)
    ensures EnteredIn(s, from, from, n)
  {
  }

  /** The strings of the input that agree do so in the window. */
  lemma SameHeld(w: seq<int>, data: seq<int>, end: nat, q: int, p: int, k: nat)
    requires Held(w, data, end) && 0 <= q < p && p + k <= end
    ensures Same(data, |data| - end + q, |data| - end + p, k) <==> Same(w, q, p, k)
  {
    HeldPart(w, data, end, p, p + k);
    HeldPart(w, data, end, q, q + k);
  }

  /** The search along the chain: its first string agrees on no more than the length found. */
  lemma SearchLong(v: View, data: seq<int>, seen: seq<int>, q: int, p: nat, len: nat, ahead: nat)
    requires Held(v.w, data, v.end) && p + ahead == v.end && 0 <= q < p && Walked(v, seen, q)
    requires len < ahead ==> NoneLonger(v.w, seen, p, len)
    ensures AsLong(data, |data| - v.end + q, |data| - v.end + p, ahead, len)
  {
    hide Same;
    hide Held;
    var base := |data| - v.end;
    var x, y := base + q, base + p;
    assert q in seen by { assert seen[0] == q; }
    forall k: nat | k <= 258 && k <= ahead && Same(data, x, y, k) ensures k <= len {
      SameHeld(v.w, data, v.end, q, p, k);
      if k > len { SameLess(v.w, q, p, k, len + 1); }
    }
  }

  /** A step of deflate_fast that has searched if there was anything to search keeps the rule. */
  lemma FastRule(R: Rules, d: seq<int>, st: Step, t: T.Token, head: int, len: nat)
    requires st.ahead >= 3 ==> HeadFor(R, d, st.ins, st.base, st.at, head)
    requires st.ahead >= 3 && head != 0 && st.at - (st.base + head) <= R.reach ==>
      AsLong(d, st.base + head, st.at, st.ahead, len)
    requires if len >= 3 then t.Copy? && t.len == len else t.Literal?
    requires st.ins <= st.after && (st.ahead >= 3 ==> st.at in st.after)
    requires len >= 3 && len <= R.maxLazy && st.ahead - len >= 3 ==> Entered(st.after, st.at + 1, st.at + len)
    ensures Greedy(R, d, t, st)
  {
    hide Latest;
    hide Same;
    hide Stands;
    forall q | First(R, d, st, q) ensures t.Copy? && t.len >= 3 && AsLong(d, q, st.at, st.ahead, t.len) {
      FirstHead(R, d, st, q, head);
    }
  }

  lemma FirstHead(R: Rules, d: seq<int>, st: Step, q: int, head: int)
    requires First(R, d, st, q) && HeadFor(R, d, st.ins, st.base, st.at, head)
    ensures head == q - st.base > 0 && st.at - (st.base + head) <= R.reach && st.base + head == q && st.ahead >= 3
    ensures Same(d, q, st.at, 3)
  {
    hide Same;
    hide HashAt;
    assert Stands(R, d, st.ins, st.base, q, st.at);
  }

  /** A step of deflate_slow: len0 is what the search found, len what is left of it. */
  lemma SlowRule(R: Rules, d: seq<int>, st: Step, head: int, len0: nat, start: int)
    requires st.ahead >= 3 ==> HeadFor(R, d, st.ins, st.base, st.at, head)
    requires st.ahead >= 3 && head != 0 && st.at - (st.base + head) <= R.reach && st.before < R.maxLazy ==>
      AsLong(d, st.base + head, st.at, st.ahead, len0) &&
      (st.before < len0 < st.ahead && Same(d, st.base + head, st.at, len0) ==> start == st.base + head)
    requires st.found == start && (st.len == 3 ==> st.at - start <= 4096) && (R.filtered ==> st.len == 2 || st.len > 5)
    requires st.len == len0 || (st.len == 2 && len0 <= 5 && (R.filtered || (len0 == 3 && st.at - start > 4096)))
    requires st.len >= 2 && st.before >= 2 && (st.before >= R.maxLazy ==> st.len == 2)
    ensures Looking(R, d, st)
  {
    hide Latest;
    hide Same;
    hide Stands;
    hide HeadFor;
    if st.before < R.maxLazy {
      forall q | First(R, d, st, q) ensures Enough(R, d, st, q) {
        FirstHead(R, d, st, q, head);
      }
    }
  }

  lemma LazyRule(R: Rules, d: seq<int>, ts: seq<T.Token>, st: Step)
    requires R.func.Slow? && Looking(R, d, st) && st.ins <= st.after && (st.ahead >= 3 ==> st.at in st.after)
    requires Taken(st) ==>
      |ts| == 1 && ts[0] == T.Copy(st.before, st.at - 1 - st.prior) &&
      EnteredIn(st.after, st.at, st.at - 1 + st.before, |d|)
    requires !Taken(st) && st.waiting ==> |ts| == 1 && ts[0].Literal?
    requires !Taken(st) && !st.waiting ==> ts == []
    ensures Rule(R, d, ts, st)
  {
    hide Looking;
  }

  lemma LookingSame(R: Rules, d: seq<int>, st: Step, st': Step)
    requires Looking(R, d, st) && st' == st.(after := st'.after, first := st'.first, last := st'.last)
    ensures Looking(R, d, st')
  {
    hide Latest;
    hide Same;
    forall q | First(R, d, st', q) && st.before < R.maxLazy ensures Enough(R, d, st', q) {
      assert First(R, d, st, q);
      assert Enough(R, d, st, q);
    }
  }
}
