/** blocksort.c, mainSort step 2: from a big bucket whose small buckets [ss, j], j != ss, are in
    order, all small buckets [c, ss] not yet done are filled in order, [ss, ss] included. */
module MainScan {
  import opened Rotations
  import opened Counting
  import opened MainSimpleSort
  import opened MainOrder

  /** The block, the byte of the big bucket, ptr as it was, and which big buckets are done. */
  datatype Sweep = Sweep(b: seq<int>, ss: int, was: seq<int>, done: seq<bool>)

  ghost function Lo(w: Sweep, c: int): (p: nat) {
    Start(w.b, 256 * c + w.ss)
  }

  ghost function Hi(w: Sweep, c: int): (p: nat) {
    Start(w.b, 256 * c + w.ss + 1)
  }

  /** Where the big bucket begins and ends. */
  ghost function First(w: Sweep): (p: nat) {
    Start(w.b, 256 * w.ss)
  }

  ghost function Past(w: Sweep): (p: nat) {
    Start(w.b, 256 * w.ss + 256)
  }

  ghost predicate Valid(w: Sweep) {
    Keys(w.b, 256) && |w.b| >= 2 && 0 <= w.ss < 256 && |w.done| == 256 && !w.done[w.ss] && Bucketed(w.b, w.was) &&
    (forall k {:trigger Done(w.b, w.was, k)} ::
    256 * w.ss <= k < 256 * w.ss + 256 && k != 256 * w.ss + w.ss ==> Done(w.b, w.was, k)) &&
    (forall c {:trigger w.done[c]} :: 0 <= c < 256 && w.done[c] ==> Done(w.b, w.was, 256 * c + w.ss))
  }

  lemma Bounds(w: Sweep, c: int)
    requires Valid(w) && 0 <= c < 256
    ensures First(w) <= Lo(w, w.ss) <= Hi(w, w.ss) <= Past(w) <= |w.b|
    ensures Lo(w, c) <= Hi(w, c) <= |w.b|
    ensures c < w.ss ==> Hi(w, c) <= First(w)
    ensures c > w.ss ==> Lo(w, c) >= Past(w)
  {
    StartMonotone(w.b, 256 * w.ss, 256 * w.ss + w.ss);
    StartMonotone(w.b, 256 * w.ss + w.ss, 256 * w.ss + w.ss + 1);
    StartMonotone(w.b, 256 * w.ss + w.ss + 1, 256 * w.ss + 256);
    StartMonotone(w.b, 256 * c + w.ss, 256 * c + w.ss + 1);
    if c < w.ss { StartMonotone(w.b, 256 * c + w.ss + 1, 256 * w.ss); }
    if c > w.ss { StartMonotone(w.b, 256 * w.ss + 256, 256 * c + w.ss); }
  }

  lemma Disjoint(w: Sweep, c: int, d: int)
    requires c < d
    ensures Hi(w, c) <= Lo(w, d)
  {
    StartMonotone(w.b, 256 * c + w.ss + 1, 256 * d + w.ss);
  }

  /* ---------- the buckets being filled ---------- */

  /** First and second byte of the rotation at position p of ptr as it was: of its bucket's name. */
  ghost function First1(w: Sweep, p: int): (c: int)
    requires Valid(w) && 0 <= p < |w.b|
    ensures 0 <= c < 256
  {
    w.b[w.was[p]]
  }

  ghost function Next2(w: Sweep, p: int): (c: int)
    requires Valid(w) && 0 <= p < |w.b|
    ensures 0 <= c < 256
  {
    w.b[Next(|w.b|, w.was[p])]
  }

  /** Bucket [c, ss] holds the predecessors of vl from below and those of vr from above. */
  ghost predicate FilledAt(w: Sweep, s: seq<int>, cs: seq<int>, ce: seq<int>, vl: seq<int>, vr: seq<int>, c: int)
    requires |s| == |w.b| && |cs| == |ce| == |w.done| == 256 && Rots(w.b, vl) && Rots(w.b, vr) && 0 <= c < 256
  {
    Lo(w, c) <= cs[c] <= ce[c] + 1 <= Hi(w, c) <= |s| &&
    (if w.done[c] then cs[c] == Lo(w, c) && ce[c] + 1 == Hi(w, c)
     else s[Lo(w, c)..cs[c]] == Preds(w.b, vl, c) && s[ce[c] + 1..Hi(w, c)] == Preds(w.b, vr, c))
  }

  /** Position p is not in a part filled so far. */
  ghost predicate Open(w: Sweep, cs: seq<int>, ce: seq<int>, p: int)
    requires Valid(w) && 0 <= p < |w.b| && |cs| == |ce| == 256
  {
    Next2(w, p) != w.ss || cs[First1(w, p)] <= p <= ce[First1(w, p)]
  }

  /** Visited so far: vl from the lower end of the big bucket and vr from the upper. */
  ghost predicate State(w: Sweep, s: seq<int>, cs: seq<int>, ce: seq<int>, vl: seq<int>, vr: seq<int>) {
    Valid(w) && |s| == |w.b| && |cs| == |ce| == 256 &&
    Swept(w.b, w.ss, -1, vl) && Swept(w.b, w.ss, 1, vr) &&
    (forall c :: 0 <= c < 256 ==> FilledAt(w, s, cs, ce, vl, vr, c)) &&
    (forall p {:trigger s[p]} :: 0 <= p < |w.b| && Open(w, cs, ce, p) ==> s[p] == w.was[p])
  }

  lemma StateStart(w: Sweep, cs: seq<int>, ce: seq<int>)
    requires Valid(w) && |cs| == |ce| == 256 && forall c :: 0 <= c < 256 ==> cs[c] == Lo(w, c) && ce[c] == Hi(w, c) - 1
    ensures State(w, w.was, cs, ce, [], [])
  {
    forall c | 0 <= c < 256 ensures FilledAt(w, w.was, cs, ce, [], [], c) {
      Bounds(w, c);
    }
  }

  lemma StateFacts(w: Sweep, s: seq<int>, cs: seq<int>, ce: seq<int>, vl: seq<int>, vr: seq<int>, c: int)
    requires State(w, s, cs, ce, vl, vr) && 0 <= c < 256
    ensures |s| == |w.b| && |cs| == |ce| == |w.done| == 256 && 0 <= w.ss < 256 && !w.done[w.ss] && Rots(w.b, vl) &&
      Rots(w.b, vr)
    ensures FilledAt(w, s, cs, ce, vl, vr, c)
    ensures First(w) <= Lo(w, w.ss) <= Hi(w, w.ss) <= Past(w) <= |s|
  {
    Bounds(w, c);
  }

  lemma DrawnPair(b: seq<int>, ss: int, side: int, c: int, r: seq<int>)
    requires Drawn(b, ss, side, c, r)
    ensures Rots(b, r) && (forall i :: 0 <= i < |r| ==> Pair(b, r[i]) == 256 * c + ss) &&
      (forall i, j :: 0 <= i < j < |r| ==> r[i] != r[j])
  {
  }

  /** Where the write goes it disturbs neither what has been visited nor another bucket. */
  lemma WritePlace(w: Sweep, c: int, p: int)
    requires Valid(w) && 0 <= c < 256 && Lo(w, c) <= p < Hi(w, c)
    ensures 0 <= p < |w.b| && First1(w, p) == c && Next2(w, p) == w.ss
    ensures c != w.ss ==> p < First(w) || p >= Past(w)
    ensures forall d :: 0 <= d < 256 && d != c ==> p < Lo(w, d) || p >= Hi(w, d)
  {
    Bounds(w, c);
    EntryPair(w.b, w.was, 256 * c + w.ss, p);
    PairRange(w.b, w.was[p]);
    forall d | 0 <= d < 256 && d != c ensures p < Lo(w, d) || p >= Hi(w, d) {
      if d < c { Disjoint(w, d, c); } else { Disjoint(w, c, d); }
    }
  }

  /** A block of entries of a bucket that is being filled: what joins the two ends is different. */
  lemma DrawnBoth(w: Sweep, c: int, r1: seq<int>, r2: seq<int>)
    requires Drawn(w.b, w.ss, -1, c, r1) && Drawn(w.b, w.ss, 1, c, r2)
    ensures |r1| + |r2| <= Hi(w, c) - Lo(w, c)
  {
    hide RotationOrder;
    hide Side;
    var r := r1 + r2;
    DrawnPair(w.b, w.ss, -1, c, r1);
    DrawnPair(w.b, w.ss, 1, c, r2);
    forall i, j | 0 <= i < j < |r| ensures r[i] != r[j] {
      if i < |r1| <= j { assert r[i] == r1[i] && r[j] == r2[j - |r1|]; }
    }
    PairsBound(w.b, r, 256 * c + w.ss);
  }

  lemma VisitUp(w: Sweep, v: seq<int>, x: int, c: int)
    requires Rots(w.b, v) && 0 <= x < |w.b|
    ensures Rots(w.b, v + [x]) && Rots(w.b, [x] + v)
    ensures Preds(w.b, v + [x], c) == Preds(w.b, v, c) + Pred(w.b, x, c)
    ensures Preds(w.b, [x] + v, c) == Pred(w.b, x, c) + Preds(w.b, v, c)
  {
    PredsConcat(w.b, v, [x], c);
    PredsConcat(w.b, [x], v, c);
    PredsOne(w.b, x, c);
  }

  /** There is room for one more predecessor. */
  lemma Room(w: Sweep, s: seq<int>, cs: seq<int>, ce: seq<int>, vl: seq<int>, vr: seq<int>, vl': seq<int>,
      vr': seq<int>, c: int)
    requires State(w, s, cs, ce, vl, vr) && Swept(w.b, w.ss, -1, vl') && Swept(w.b, w.ss, 1, vr') && 0 <= c < 256 &&
      !w.done[c]
    requires Rots(w.b, vl') && Rots(w.b, vr')
    requires |Preds(w.b, vl', c)| + |Preds(w.b, vr', c)| == |Preds(w.b, vl, c)| + |Preds(w.b, vr, c)| + 1
    ensures cs[c] <= ce[c]
  {
    hide Preds;
    hide Swept;
    hide Valid;
    StateFacts(w, s, cs, ce, vl, vr, c);
    PredsDrawn(w.b, w.ss, -1, vl', c);
    PredsDrawn(w.b, w.ss, 1, vr', c);
    DrawnBoth(w, c, Preds(w.b, vl', c), Preds(w.b, vr', c));
  }

  /** A write into an unfilled place of bucket [c, ss] leaves the filled parts of other buckets alone. */
  lemma FilledOther(w: Sweep, s: seq<int>, cs: seq<int>, ce: seq<int>, cs': seq<int>, ce': seq<int>, vl: seq<int>,
      vr: seq<int>,
                    vl': seq<int>, vr': seq<int>, p: int, k: int, c: int, d: int)
    requires Valid(w) && |s| == |w.b| && |cs| == |ce| == |cs'| == |ce'| == 256 && Rots(w.b, vl) && Rots(w.b, vr) &&
      Rots(w.b, vl') && Rots(w.b, vr')
    requires 0 <= c < 256 && 0 <= d < 256 && d != c && Lo(w, c) <= p < Hi(w, c) && p < |s|
    requires FilledAt(w, s, cs, ce, vl, vr, d) && cs'[d] == cs[d] && ce'[d] == ce[d]
    requires Preds(w.b, vl', d) == Preds(w.b, vl, d) && Preds(w.b, vr', d) == Preds(w.b, vr, d)
    ensures FilledAt(w, s[p := k], cs', ce', vl', vr', d)
  {
    hide Preds;
    WritePlace(w, c, p);
    if !w.done[d] {
      assert s[p := k][Lo(w, d)..cs[d]] == s[Lo(w, d)..cs[d]];
      assert s[p := k][ce[d] + 1..Hi(w, d)] == s[ce[d] + 1..Hi(w, d)];
    }
  }

  /** Nothing to copy: the predecessor's big bucket is done. */
  lemma StateSkip(w: Sweep, s: seq<int>, cs: seq<int>, ce: seq<int>, vl: seq<int>, vr: seq<int>, vl': seq<int>,
      vr': seq<int>, c: int)
    requires State(w, s, cs, ce, vl, vr) && Swept(w.b, w.ss, -1, vl') && Swept(w.b, w.ss, 1, vr')
    requires 0 <= c < 256 && w.done[c]
    requires forall d ::
      0 <= d < 256 && d != c ==> Preds(w.b, vl', d) == Preds(w.b, vl, d) && Preds(w.b, vr', d) == Preds(w.b, vr, d)
    ensures State(w, s, cs, ce, vl', vr')
  {
    hide Preds;
    hide Valid;
    hide Open;
    hide RotationOrder;
    StateFacts(w, s, cs, ce, vl, vr, c);
    forall d | 0 <= d < 256 ensures FilledAt(w, s, cs, ce, vl', vr', d) {
      assert FilledAt(w, s, cs, ce, vl, vr, d);
    }
  }

  /** The next entry from below: its predecessor goes to the lowest unfilled place of its bucket. */
  lemma CopyUp(w: Sweep, s: seq<int>, cs: seq<int>, ce: seq<int>, vl: seq<int>, vr: seq<int>, x: int, c: int)
    requires State(w, s, cs, ce, vl, vr) && Swept(w.b, w.ss, -1, vl + [x]) && 0 <= x < |w.b|
    requires c == w.b[Prev(|w.b|, x)] && 0 <= c < 256 && !w.done[c]
    ensures Lo(w, c) <= cs[c] <= ce[c] < Hi(w, c) <= |s|
    ensures State(w, s[cs[c] := Prev(|w.b|, x)], cs[c := cs[c] + 1], ce, vl + [x], vr)
  {
    hide Preds;
    hide Swept;
    var k := Prev(|w.b|, x);
    StateFacts(w, s, cs, ce, vl, vr, c);
    VisitUp(w, vl, x, c);
    forall d ensures Preds(w.b, vl + [x], d) == Preds(w.b, vl, d) + Pred(w.b, x, d) { VisitUp(w, vl, x, d); }
    Room(w, s, cs, ce, vl, vr, vl + [x], vr, c);
    var p, s', cs' := cs[c], s[cs[c] := k], cs[c := cs[c] + 1];
    forall d | 0 <= d < 256 ensures FilledAt(w, s', cs', ce, vl + [x], vr, d) {
      assert FilledAt(w, s, cs, ce, vl, vr, d);
      if d == c {
        assert s'[Lo(w, c)..p + 1] == s[Lo(w, c)..p] + [k];
        assert s'[ce[c] + 1..Hi(w, c)] == s[ce[c] + 1..Hi(w, c)];
      } else {
        FilledOther(w, s, cs, ce, cs', ce, vl, vr, vl + [x], vr, p, k, c, d);
      }
    }
    WritePlace(w, c, p);
    StateIntro(w, s', cs', ce, vl + [x], vr, s, cs, ce, p);
  }

  /** The place just below those filled from above is filled. */
  lemma FilledDown(w: Sweep, s: seq<int>, cs: seq<int>, ce: seq<int>, vl: seq<int>, vr: seq<int>, vr': seq<int>, k: int,
      c: int)
    requires |s| == |w.b| && |cs| == |ce| == |w.done| == 256 && Rots(w.b, vl) && Rots(w.b, vr) && Rots(w.b, vr') &&
      0 <= c < 256
    requires FilledAt(w, s, cs, ce, vl, vr, c) && !w.done[c] && Lo(w, c) <= cs[c] <= ce[c] < Hi(w, c) <= |s| &&
      0 <= ce[c]
    requires Preds(w.b, vr', c) == [k] + Preds(w.b, vr, c)
    ensures FilledAt(w, s[ce[c] := k], cs, ce[c := ce[c] - 1], vl, vr', c)
  {
    hide Preds;
    hide Lo;
    hide Hi;
    hide Rots;
    var p, s' := ce[c], s[ce[c] := k];
    assert s'[p..Hi(w, c)] == [k] + s[p + 1..Hi(w, c)];
    assert s'[Lo(w, c)..cs[c]] == s[Lo(w, c)..cs[c]];
  }

  /** The next entry from above: its predecessor goes to the highest unfilled place. */
  lemma CopyDown(w: Sweep, s: seq<int>, cs: seq<int>, ce: seq<int>, vl: seq<int>, vr: seq<int>, x: int, c: int)
    requires State(w, s, cs, ce, vl, vr) && Swept(w.b, w.ss, 1, [x] + vr) && 0 <= x < |w.b|
    requires c == w.b[Prev(|w.b|, x)] && 0 <= c < 256 && !w.done[c]
    ensures Lo(w, c) <= cs[c] <= ce[c] < Hi(w, c) <= |s|
    ensures State(w, s[ce[c] := Prev(|w.b|, x)], cs, ce[c := ce[c] - 1], vl, [x] + vr)
  {
    hide Preds;
    hide Swept;
    var k := Prev(|w.b|, x);
    StateFacts(w, s, cs, ce, vl, vr, c);
    VisitUp(w, vr, x, c);
    forall d ensures Preds(w.b, [x] + vr, d) == Pred(w.b, x, d) + Preds(w.b, vr, d) { VisitUp(w, vr, x, d); }
    Room(w, s, cs, ce, vl, vr, vl, [x] + vr, c);
    var p, s', ce' := ce[c], s[ce[c] := k], ce[c := ce[c] - 1];
    forall d | 0 <= d < 256 ensures FilledAt(w, s', cs, ce', vl, [x] + vr, d) {
      assert FilledAt(w, s, cs, ce, vl, vr, d);
      if d == c {
        FilledDown(w, s, cs, ce, vl, vr, [x] + vr, k, c);
      } else {
        FilledOther(w, s, cs, ce, cs, ce', vl, vr, vl, [x] + vr, p, k, c, d);
      }
    }
    WritePlace(w, c, p);
    StateIntro(w, s', cs, ce', vl, [x] + vr, s, cs, ce, p);
  }

  lemma StateIntro(w: Sweep, s': seq<int>, cs': seq<int>, ce': seq<int>, vl': seq<int>, vr': seq<int>,
                   s: seq<int>, cs: seq<int>, ce: seq<int>, p: int)
    requires Valid(w) && |s| == |s'| == |w.b| == |w.was| && |cs| == |ce| == |cs'| == |ce'| == 256 && 0 <= p < |s|
    requires Swept(w.b, w.ss, -1, vl') && Swept(w.b, w.ss, 1, vr')
    requires forall c :: 0 <= c < 256 ==> FilledAt(w, s', cs', ce', vl', vr', c)
    requires forall q {:trigger s[q]} :: 0 <= q < |w.b| && Open(w, cs, ce, q) ==> s[q] == w.was[q]
    requires forall q {:trigger s'[q]} :: 0 <= q < |w.b| && q != p ==> s'[q] == s[q]
    requires forall c :: 0 <= c < 256 ==> cs[c] <= cs'[c] && ce'[c] <= ce[c]
    requires Next2(w, p) == w.ss && !(cs'[First1(w, p)] <= p <= ce'[First1(w, p)])
    ensures State(w, s', cs', ce', vl', vr')
  {
    hide Valid;
    hide Swept;
    hide FilledAt;
    forall q {:trigger s'[q]} | 0 <= q < |w.b| && Open(w, cs', ce', q) ensures s'[q] == w.was[q] {
      assert s[q] == s[q];
    }
  }

  /** A rotation of bucket [ss, j] lies below or above the ss-only string as j does. */
  lemma SideOfPair(b: seq<int>, ss: int, x: int)
    requires Keys(b, 256) && |b| >= 2 && 0 <= x < |b| && b[x] == ss
    ensures b[Next(|b|, x)] < ss ==> Side(b, ss, x, |b|) == -1
    ensures b[Next(|b|, x)] > ss ==> Side(b, ss, x, |b|) == 1
  {
    assert Side(b, ss, x, |b|) == Side(b, ss, Next(|b|, x), |b| - 1);
  }

  /** A stretch of small buckets [ss, j] with j on one side of ss is swept on that side. */
  lemma SweptStart(w: Sweep, c0: int, c1: int, side: int)
    requires Valid(w) && 256 * w.ss <= c0 <= c1 <= 256 * w.ss + 256
    requires (side == -1 && c1 == 256 * w.ss + w.ss) || (side == 1 && c0 == 256 * w.ss + w.ss + 1)
    ensures Start(w.b, c0) <= Start(w.b, c1) <= |w.was| && Swept(w.b, w.ss, side, w.was[Start(w.b, c0)..Start(w.b, c1)])
  {
    hide RotationOrder;
    hide Pair;
    hide Side;
    var b := w.b;
    StartMonotone(b, c0, c1);
    BucketsInOrder(b, w.was, c0, c1);
    var lo, v := Start(b, c0), w.was[Start(b, c0)..Start(b, c1)];
    forall i | 0 <= i < |v| ensures 0 <= v[i] < |b| && b[v[i]] == w.ss && Side(b, w.ss, v[i], |b|) == side {
      assert v[i] == w.was[lo + i];
      StretchPair(w, c0, c1, lo + i);
      PairRange(b, v[i]);
      SideOfPair(b, w.ss, v[i]);
    }
    forall i, j | 0 <= i < j < |v| ensures v[i] != v[j] && RotationOrder(b)(v[i], v[j]) {
      assert v[i] == w.was[lo + i] && v[j] == w.was[lo + j];
    }
  }

  lemma StretchPair(w: Sweep, c0: int, c1: int, p: int)
    requires Valid(w) && Start(w.b, c0) <= p < Start(w.b, c1) && 0 <= p < |w.b|
    ensures 0 <= w.was[p] < |w.b| && c0 <= Pair(w.b, w.was[p]) < c1
  {
    var k := Pair(w.b, w.was[p]);
    assert In(w.b, k, p);
    if k < c0 { StartMonotone(w.b, k + 1, c0); }
    if k >= c1 { StartMonotone(w.b, c1, k); }
  }

  /** Sequences of different rotations with a common pair that come one after the other. */
  lemma SweptPrefix(b: seq<int>, ss: int, side: int, v: seq<int>, i: nat)
    requires Swept(b, ss, side, v) && i <= |v|
    ensures Swept(b, ss, side, v[..i]) && Swept(b, ss, side, v[i..])
  {
    hide RotationOrder;
    hide Side;
  }


  /* ---------- the big bucket itself ---------- */

  /** Predecessors that begin with ss again continue the run. */
  lemma PredsSwept(b: seq<int>, ss: int, side: int, v: seq<int>)
    requires Swept(b, ss, side, v)
    ensures Swept(b, ss, side, Preds(b, v, ss))
  {
    hide RotationOrder;
    PredsDrawn(b, ss, side, v, ss);
    var r := Preds(b, v, ss);
    forall i | 0 <= i < |r| ensures Side(b, ss, r[i], |b|) == side {
      NextPrev(|b|, r[i]);
      SidePrev(b, ss, Next(|b|, r[i]));
    }
  }

  /** Runs of rotations whose second bytes are different come one after the other. */
  lemma SweptConcat(b: seq<int>, ss: int, side: int, u: seq<int>, v: seq<int>)
    requires Keys(b, 256) && |b| >= 2 && Swept(b, ss, side, u) && Swept(b, ss, side, v)
    requires forall i, j :: 0 <= i < |u| && 0 <= j < |v| ==> Pair(b, u[i]) < Pair(b, v[j])
    ensures Swept(b, ss, side, u + v)
  {
    hide RotationOrder;
    hide Side;
    hide Pair;
    var t := u + v;
    forall i, j | 0 <= i < j < |t| ensures t[i] != t[j] && RotationOrder(b)(t[i], t[j]) {
      if i < |u| <= j {
        assert t[i] == u[i] && t[j] == v[j - |u|];
        PairOrder(b, u[i], v[j - |u|]);
      } else if j < |u| {
        assert t[i] == u[i] && t[j] == u[j];
      } else {
        assert t[i] == v[i - |u|] && t[j] == v[j - |u|];
      }
    }
  }

  lemma SweptJoin(b: seq<int>, ss: int, side: int, u: seq<int>, v: seq<int>, k: int, m: int)
    requires Keys(b, 256) && |b| >= 2 && Swept(b, ss, side, u) && Swept(b, ss, side, v) && Rots(b, u) && Rots(b, v) &&
      k <= m
    requires (forall i :: 0 <= i < |u| ==> Pair(b, u[i]) < k) && forall j :: 0 <= j < |v| ==> Pair(b, v[j]) >= m
    ensures Swept(b, ss, side, u + v)
  {
    hide Swept;
    hide Pair;
    SweptConcat(b, ss, side, u, v);
  }

  /** Entries of the big bucket outside [ss, ss] are as they were. */
  lemma OutsideSame(w: Sweep, s: seq<int>, cs: seq<int>, ce: seq<int>, vl: seq<int>, vr: seq<int>, p: int)
    requires State(w, s, cs, ce, vl, vr) && (First(w) <= p < Lo(w, w.ss) || Hi(w, w.ss) <= p < Past(w))
    ensures 0 <= p < |w.b| == |s| && s[p] == w.was[p]
  {
    hide FilledAt;
    hide Swept;
    hide Pair;
    Bounds(w, w.ss);
    var c0, c1 :=
      if p < Lo(w, w.ss) then 256 * w.ss else 256 * w.ss + w.ss + 1, if p < Lo(w, w.ss) then 256 * w.ss + w.ss
      else 256 * w.ss + 256;
    StretchPair(w, c0, c1, p);
    PairRange(w.b, w.was[p]);
    assert Open(w, cs, ce, p);
  }

  lemma StateParts(w: Sweep, s: seq<int>, cs: seq<int>, ce: seq<int>, vl: seq<int>, vr: seq<int>)
    requires State(w, s, cs, ce, vl, vr)
    ensures Valid(w) && |w.was| == |w.b| == |s| && Keys(w.b, 256) && |w.b| >= 2
    ensures Swept(w.b, w.ss, -1, vl) && Swept(w.b, w.ss, 1, vr) && Rots(w.b, vl) && Rots(w.b, vr)
    ensures 0 <= w.ss < 256 && |cs| == |ce| == |w.done| == 256 && !w.done[w.ss]
  {
  }

  /** The lower part of the big bucket, up to where it is filled. */
  lemma LowerSlice(w: Sweep, s: seq<int>, cs: seq<int>, ce: seq<int>, vl: seq<int>, vr: seq<int>)
    requires State(w, s, cs, ce, vl, vr)
    ensures First(w) <= cs[w.ss] <= |s| == |w.b| && Lo(w, w.ss) <= |w.was| && First(w) <= Lo(w, w.ss) && Rots(w.b, vl)
    ensures s[First(w)..cs[w.ss]] == w.was[First(w)..Lo(w, w.ss)] + Preds(w.b, vl, w.ss)
  {
    hide *;
    StateParts(w, s, cs, ce, vl, vr);
    StateFacts(w, s, cs, ce, vl, vr, w.ss);
    FilledParts(w, s, cs, ce, vl, vr, w.ss);
    forall p | First(w) <= p < Lo(w, w.ss) ensures s[p] == w.was[p] { OutsideSame(w, s, cs, ce, vl, vr, p); }
    CutSame(s, w.was, First(w), Lo(w, w.ss), cs[w.ss]);
  }

  lemma FilledParts(w: Sweep, s: seq<int>, cs: seq<int>, ce: seq<int>, vl: seq<int>, vr: seq<int>, c: int)
    requires |s| == |w.b| && |cs| == |ce| == |w.done| == 256 && Rots(w.b, vl) && Rots(w.b, vr) && 0 <= c < 256
    requires FilledAt(w, s, cs, ce, vl, vr, c) && !w.done[c]
    ensures Lo(w, c) <= cs[c] <= ce[c] + 1 <= Hi(w, c) <= |s|
    ensures s[Lo(w, c)..cs[c]] == Preds(w.b, vl, c) && s[ce[c] + 1..Hi(w, c)] == Preds(w.b, vr, c)
  {
  }

  lemma CutSame(s: seq<int>, t: seq<int>, a: nat, m: nat, e: nat)
    requires a <= m <= e <= |s| == |t|
    ensures (forall p :: a <= p < m ==> s[p] == t[p]) ==> s[a..e] == t[a..m] + s[m..e]
    ensures (forall p :: m <= p < e ==> s[p] == t[p]) ==> s[a..e] == s[a..m] + t[m..e]
  {
  }

  lemma LowerSwept(w: Sweep, vl: seq<int>)
    requires Valid(w) && Rots(w.b, vl) && Swept(w.b, w.ss, -1, vl) && First(w) <= Lo(w, w.ss) <= |w.was|
    ensures Swept(w.b, w.ss, -1, w.was[First(w)..Lo(w, w.ss)] + Preds(w.b, vl, w.ss))
  {
    hide *;
    ValidParts(w);
    SweptStart(w, 256 * w.ss, 256 * w.ss + w.ss, -1);
    PredsSwept(w.b, w.ss, -1, vl);
    PredsDrawn(w.b, w.ss, -1, vl, w.ss);
    DrawnPair(w.b, w.ss, -1, w.ss, Preds(w.b, vl, w.ss));
    StretchPairs(w, 256 * w.ss, 256 * w.ss + w.ss);
    FirstLo(w);
    var u, v := w.was[First(w)..Lo(w, w.ss)], Preds(w.b, vl, w.ss);
    SweptJoin(w.b, w.ss, -1, u, v, 256 * w.ss + w.ss, 256 * w.ss + w.ss);
  }

  lemma ValidParts(w: Sweep)
    requires Valid(w)
    ensures Keys(w.b, 256) && |w.b| >= 2 && 0 <= w.ss < 256 && |w.was| == |w.b|
  {
  }

  lemma FirstLo(w: Sweep)
    ensures First(w) == Start(w.b, 256 * w.ss) && Lo(w, w.ss) == Start(w.b, 256 * w.ss + w.ss)
    ensures Past(w) == Start(w.b, 256 * w.ss + 256) && Hi(w, w.ss) == Start(w.b, 256 * w.ss + w.ss + 1)
  {
  }

  lemma StretchPairs(w: Sweep, c0: int, c1: int)
    requires Valid(w) && c0 <= c1
    ensures Start(w.b, c0) <= Start(w.b, c1) <= |w.was| && Rots(w.b, w.was[Start(w.b, c0)..Start(w.b, c1)])
    ensures var u := w.was[Start(w.b, c0)..Start(w.b, c1)]; forall i :: 0 <= i < |u| ==> c0 <= Pair(w.b, u[i]) < c1
  {
    StartMonotone(w.b, c0, c1);
    var u := w.was[Start(w.b, c0)..Start(w.b, c1)];
    hide Pair;
    hide Start;
    forall i | 0 <= i < |u| ensures 0 <= u[i] < |w.b| && c0 <= Pair(w.b, u[i]) < c1 {
      StretchPair(w, c0, c1, Start(w.b, c0) + i);
    }
  }

  lemma LowerRegion(w: Sweep, s: seq<int>, cs: seq<int>, ce: seq<int>, vl: seq<int>, vr: seq<int>)
    requires State(w, s, cs, ce, vl, vr)
    ensures |cs| == 256 && 0 <= w.ss < 256 && First(w) <= cs[w.ss] <= |s| == |w.b| &&
      Swept(w.b, w.ss, -1, s[First(w)..cs[w.ss]])
  {
    hide *;
    StateParts(w, s, cs, ce, vl, vr);
    LowerSlice(w, s, cs, ce, vl, vr);
    LowerSwept(w, vl);
  }

  /** The upper part, down to where it is filled. */
  lemma UpperSlice(w: Sweep, s: seq<int>, cs: seq<int>, ce: seq<int>, vl: seq<int>, vr: seq<int>)
    requires State(w, s, cs, ce, vl, vr)
    ensures 0 <= ce[w.ss] + 1 <= Past(w) <= |s| == |w.b| && Hi(w, w.ss) <= Past(w) <= |w.was| && Rots(w.b, vr)
    ensures s[ce[w.ss] + 1..Past(w)] == Preds(w.b, vr, w.ss) + w.was[Hi(w, w.ss)..Past(w)]
  {
    hide *;
    StateParts(w, s, cs, ce, vl, vr);
    StateFacts(w, s, cs, ce, vl, vr, w.ss);
    FilledParts(w, s, cs, ce, vl, vr, w.ss);
    forall p | Hi(w, w.ss) <= p < Past(w) ensures s[p] == w.was[p] { OutsideSame(w, s, cs, ce, vl, vr, p); }
    CutSame(s, w.was, ce[w.ss] + 1, Hi(w, w.ss), Past(w));
  }

  lemma UpperSwept(w: Sweep, vr: seq<int>)
    requires Valid(w) && Rots(w.b, vr) && Swept(w.b, w.ss, 1, vr) && Hi(w, w.ss) <= Past(w) <= |w.was|
    ensures Swept(w.b, w.ss, 1, Preds(w.b, vr, w.ss) + w.was[Hi(w, w.ss)..Past(w)])
  {
    hide *;
    ValidParts(w);
    SweptStart(w, 256 * w.ss + w.ss + 1, 256 * w.ss + 256, 1);
    PredsSwept(w.b, w.ss, 1, vr);
    PredsDrawn(w.b, w.ss, 1, vr, w.ss);
    DrawnPair(w.b, w.ss, 1, w.ss, Preds(w.b, vr, w.ss));
    StretchPairs(w, 256 * w.ss + w.ss + 1, 256 * w.ss + 256);
    FirstLo(w);
    var u, v := Preds(w.b, vr, w.ss), w.was[Hi(w, w.ss)..Past(w)];
    SweptJoin(w.b, w.ss, 1, u, v, 256 * w.ss + w.ss + 1, 256 * w.ss + w.ss + 1);
  }

  lemma UpperRegion(w: Sweep, s: seq<int>, cs: seq<int>, ce: seq<int>, vl: seq<int>, vr: seq<int>)
    requires State(w, s, cs, ce, vl, vr)
    ensures |ce| == 256 && 0 <= w.ss < 256 && 0 <= ce[w.ss] + 1 <= Past(w) <= |s| == |w.b|
    ensures Swept(w.b, w.ss, 1, s[ce[w.ss] + 1..Past(w)])
  {
    hide *;
    StateParts(w, s, cs, ce, vl, vr);
    UpperSlice(w, s, cs, ce, vl, vr);
    UpperSwept(w, vr);
  }

  /* ---------- the two scans ---------- */

  /** The left scan has visited the big bucket up to j. */
  ghost predicate LeftScan(w: Sweep, s: seq<int>, cs: seq<int>, ce: seq<int>, j: int) {
    First(w) <= j <= |s| && |cs| == |ce| == 256 && 0 <= w.ss < 256 && j <= cs[w.ss] &&
    State(w, s, cs, ce, s[First(w)..j], [])
  }

  /** The left scan is over and the right scan has visited the big bucket down to j + 1. */
  ghost predicate RightScan(w: Sweep, s: seq<int>, cs: seq<int>, ce: seq<int>, j: int) {
    |cs| == |ce| == 256 && 0 <= w.ss < 256 && First(w) <= cs[w.ss] <= |s| && 0 <= j + 1 <= Past(w) <= |s| &&
    ce[w.ss] <= j &&
    State(w, s, cs, ce, s[First(w)..cs[w.ss]], s[j + 1..Past(w)])
  }

  lemma LeftScanStart(w: Sweep, cs: seq<int>, ce: seq<int>)
    requires Valid(w) && |cs| == |ce| == 256 && forall c :: 0 <= c < 256 ==> cs[c] == Lo(w, c) && ce[c] == Hi(w, c) - 1
    ensures LeftScan(w, w.was, cs, ce, First(w))
  {
    StateStart(w, cs, ce);
    Bounds(w, w.ss);
    assert w.was[First(w)..First(w)] == [];
  }

  /** The next entry of the left scan. */
  lemma NextLower(w: Sweep, s: seq<int>, cs: seq<int>, ce: seq<int>, j: int)
    requires LeftScan(w, s, cs, ce, j) && j < cs[w.ss]
    ensures 0 <= First(w) <= j < |s| == |w.b| && 0 <= s[j] < |w.b| && |cs| == |ce| == |w.done| == 256
    ensures 0 <= w.b[Prev(|w.b|, s[j])] < 256 && Valid(w) && State(w, s, cs, ce, s[First(w)..j], [])
    ensures s[First(w)..j + 1] == s[First(w)..j] + [s[j]] && Swept(w.b, w.ss, -1, s[First(w)..j] + [s[j]])
    ensures Rots(w.b, s[First(w)..j])
  {
    var f := First(w);
    LowerRegion(w, s, cs, ce, s[f..j], []);
    StateParts(w, s, cs, ce, s[f..j], []);
    hide State;
    var region := s[f..cs[w.ss]];
    assert region[j - f] == s[j];
    assert region[..j + 1 - f] == s[f..j] + [s[j]] == s[f..j + 1];
    SweptPrefix(w.b, w.ss, -1, region, j + 1 - f);
  }

  lemma LeftScanSkip(w: Sweep, s: seq<int>, cs: seq<int>, ce: seq<int>, j: int, c: int)
    requires LeftScan(w, s, cs, ce, j) && j < cs[w.ss]
    requires 0 <= j < |s| == |w.b| && 0 <= s[j] < |w.b| && |w.done| == 256 && c == w.b[Prev(|w.b|, s[j])] &&
      0 <= c < 256 && w.done[c]
    ensures LeftScan(w, s, cs, ce, j + 1)
  {
    NextLower(w, s, cs, ce, j);
    hide State;
    hide Swept;
    hide Valid;
    hide Preds;
    var v, x := s[First(w)..j], s[j];
    forall d | 0 <= d < 256 && d != c ensures Preds(w.b, v + [x], d) == Preds(w.b, v, d) { VisitUp(w, v, x, d); }
    SweptNone(w, 1);
    StateSkip(w, s, cs, ce, v, [], v + [x], [], c);
  }

  lemma SweptNone(w: Sweep, side: int)
    ensures Swept(w.b, w.ss, side, [])
  {
  }

  lemma LeftScanCopy(w: Sweep, s: seq<int>, cs: seq<int>, ce: seq<int>, j: int, c: int)
    requires LeftScan(w, s, cs, ce, j) && j < cs[w.ss]
    requires 0 <= j < |s| == |w.b| && 0 <= s[j] < |w.b| && |w.done| == 256 && c == w.b[Prev(|w.b|, s[j])] &&
      0 <= c < 256 && !w.done[c]
    ensures 0 <= cs[c] < |s| && LeftScan(w, s[cs[c] := Prev(|w.b|, s[j])], cs[c := cs[c] + 1], ce, j + 1)
  {
    NextLower(w, s, cs, ce, j);
    hide State;
    hide Swept;
    var v, x := s[First(w)..j], s[j];
    CopyUp(w, s, cs, ce, v, [], x, c);
    WritePlace(w, c, cs[c]);
    Bounds(w, c);
    hide Valid;
    assert s[cs[c] := Prev(|w.b|, x)][First(w)..j + 1] == s[First(w)..j + 1];
  }

  lemma RightScanStart(w: Sweep, s: seq<int>, cs: seq<int>, ce: seq<int>, j: int)
    requires LeftScan(w, s, cs, ce, j) && j >= cs[w.ss]
    ensures RightScan(w, s, cs, ce, Past(w) - 1)
  {
    StateFacts(w, s, cs, ce, s[First(w)..j], [], w.ss);
    assert s[Past(w)..Past(w)] == [];
  }

  /** The next entry of the right scan. */
  lemma NextUpper(w: Sweep, s: seq<int>, cs: seq<int>, ce: seq<int>, j: int)
    requires RightScan(w, s, cs, ce, j) && j > ce[w.ss]
    ensures 0 <= j < Past(w) <= |s| == |w.b| && 0 <= s[j] < |w.b| && |cs| == |ce| == |w.done| == 256
    ensures 0 <= w.b[Prev(|w.b|, s[j])] < 256 && Valid(w) &&
      State(w, s, cs, ce, s[First(w)..cs[w.ss]], s[j + 1..Past(w)])
    ensures s[j..Past(w)] == [s[j]] + s[j + 1..Past(w)] && Swept(w.b, w.ss, 1, [s[j]] + s[j + 1..Past(w)])
    ensures Rots(w.b, s[j + 1..Past(w)]) && Rots(w.b, s[First(w)..cs[w.ss]]) &&
      Swept(w.b, w.ss, -1, s[First(w)..cs[w.ss]])
  {
    var e, vl, v := Past(w), s[First(w)..cs[w.ss]], s[j + 1..Past(w)];
    UpperRegion(w, s, cs, ce, vl, v);
    StateParts(w, s, cs, ce, vl, v);
    hide State;
    var region, k := s[ce[w.ss] + 1..e], j - ce[w.ss] - 1;
    assert region[k] == s[j];
    assert region[k..] == [s[j]] + v == s[j..e];
    SweptPrefix(w.b, w.ss, 1, region, k);
  }

  lemma RightScanSkip(w: Sweep, s: seq<int>, cs: seq<int>, ce: seq<int>, j: int, c: int)
    requires RightScan(w, s, cs, ce, j) && j > ce[w.ss]
    requires 0 <= j < |s| == |w.b| && 0 <= s[j] < |w.b| && |w.done| == 256 && c == w.b[Prev(|w.b|, s[j])] &&
      0 <= c < 256 && w.done[c]
    ensures RightScan(w, s, cs, ce, j - 1)
  {
    NextUpper(w, s, cs, ce, j);
    hide State;
    hide Swept;
    hide Valid;
    hide Preds;
    var vl, v, x := s[First(w)..cs[w.ss]], s[j + 1..Past(w)], s[j];
    forall d | 0 <= d < 256 && d != c ensures Preds(w.b, [x] + v, d) == Preds(w.b, v, d) { VisitUp(w, v, x, d); }
    StateSkip(w, s, cs, ce, vl, v, vl, [x] + v, c);
  }

  lemma RightScanCopy(w: Sweep, s: seq<int>, cs: seq<int>, ce: seq<int>, j: int, c: int)
    requires RightScan(w, s, cs, ce, j) && j > ce[w.ss]
    requires 0 <= j < |s| == |w.b| && 0 <= s[j] < |w.b| && |w.done| == 256 && c == w.b[Prev(|w.b|, s[j])] &&
      0 <= c < 256 && !w.done[c]
    ensures 0 <= ce[c] < |s| && RightScan(w, s[ce[c] := Prev(|w.b|, s[j])], cs, ce[c := ce[c] - 1], j - 1)
  {
    NextUpper(w, s, cs, ce, j);
    hide State;
    hide Swept;
    hide Pair;
    hide Done;
    hide Preds;
    var vl, v, x := s[First(w)..cs[w.ss]], s[j + 1..Past(w)], s[j];
    CopyDown(w, s, cs, ce, vl, v, x, c);
    WritePlace(w, c, ce[c]);
    Bounds(w, c);
    hide Valid;
    assert s[ce[c] := Prev(|w.b|, x)][j..Past(w)] == s[j..Past(w)];
    assert s[ce[c] := Prev(|w.b|, x)][First(w)..cs[w.ss]] == vl;
  }

  /* ---------- the scans reach everything ---------- */

  /** Where a rotation outside [ss, ss] stands in the big bucket. */
  lemma OutsidePlace(w: Sweep, s: seq<int>, cs: seq<int>, ce: seq<int>, vl: seq<int>, vr: seq<int>, x: int)
      returns (p: nat)
    requires State(w, s, cs, ce, vl, vr) && 0 <= x < |w.b| && w.b[x] == w.ss && w.b[Next(|w.b|, x)] != w.ss
    ensures p < |s| && s[p] == x
    ensures w.b[Next(|w.b|, x)] < w.ss ==> First(w) <= p < Lo(w, w.ss)
    ensures w.b[Next(|w.b|, x)] > w.ss ==> Hi(w, w.ss) <= p < Past(w)
  {
    StateParts(w, s, cs, ce, vl, vr);
    BucketedIs(w.b, w.was);
    p := PermutationHits(w.was, |w.b|, x);
    var k := Pair(w.b, x);
    assert In(w.b, k, p);
    if w.b[Next(|w.b|, x)] < w.ss {
      StartMonotone(w.b, 256 * w.ss, k);
      StartMonotone(w.b, k + 1, 256 * w.ss + w.ss);
    } else {
      StartMonotone(w.b, 256 * w.ss + w.ss + 1, k);
      StartMonotone(w.b, k + 1, 256 * w.ss + 256);
    }
    OutsideSame(w, s, cs, ce, vl, vr, p);
  }

  lemma BucketedIs(b: seq<int>, s: seq<int>)
    requires Bucketed(b, s)
    ensures IsPermutation(s, |b|)
  {
  }

  /** What has been visited from below once the left scan is over. */
  ghost predicate Over(w: Sweep, s: seq<int>, cs: seq<int>, ce: seq<int>, vl: seq<int>, vr: seq<int>) {
    State(w, s, cs, ce, vl, vr) && 0 <= w.ss < 256 && First(w) <= cs[w.ss] <= |s| &&
    0 <= ce[w.ss] + 1 <= Past(w) <= |s| &&
    vl == s[First(w)..cs[w.ss]] && vr == s[ce[w.ss] + 1..Past(w)]
  }

  lemma OverParts(w: Sweep, s: seq<int>, cs: seq<int>, ce: seq<int>, vl: seq<int>, vr: seq<int>)
    requires Over(w, s, cs, ce, vl, vr)
    ensures State(w, s, cs, ce, vl, vr) && 0 <= w.ss < 256 == |w.done| == |cs| == |ce| && |s| == |w.b|
    ensures First(w) <= cs[w.ss] <= |s| && 0 <= ce[w.ss] + 1 <= Past(w) <= |s|
    ensures vl == s[First(w)..cs[w.ss]] && vr == s[ce[w.ss] + 1..Past(w)] && Rots(w.b, vl) && Rots(w.b, vr)
    ensures First(w) <= Lo(w, w.ss) <= cs[w.ss] <= ce[w.ss] + 1 <= Hi(w, w.ss) <= Past(w)
  {
    StateFacts(w, s, cs, ce, vl, vr, w.ss);
  }

  lemma SliceHas(s: seq<int>, a: nat, e: nat, p: nat)
    requires a <= p < e <= |s|
    ensures s[p] in s[a..e]
  {
    assert s[a..e][p - a] == s[p];
  }

  lemma {:induction false} LowerComplete(w: Sweep, s: seq<int>, cs: seq<int>, ce: seq<int>, vl: seq<int>, vr: seq<int>,
      x: int, k: nat)
    requires Over(w, s, cs, ce, vl, vr) && 0 <= x < |w.b| && w.b[x] == w.ss && Side(w.b, w.ss, x, k) == -1
    ensures x in vl
    decreases k
  {
    var y := Next(|w.b|, x);
    assert k >= 1 && w.b[y] <= w.ss && (w.b[y] == w.ss ==> Side(w.b, w.ss, y, k - 1) == -1);
    hide *;
    OverParts(w, s, cs, ce, vl, vr);
    if w.b[y] < w.ss {
      var p := OutsidePlace(w, s, cs, ce, vl, vr, x);
      SliceHas(s, First(w), cs[w.ss], p);
    } else {
      LowerSlice(w, s, cs, ce, vl, vr);
      LowerComplete(w, s, cs, ce, vl, vr, y, k - 1);
      PredsFrom(w.b, vl, w.ss, x);
    }
  }

  lemma {:induction false} UpperComplete(w: Sweep, s: seq<int>, cs: seq<int>, ce: seq<int>, vl: seq<int>, vr: seq<int>,
      x: int, k: nat)
    requires Over(w, s, cs, ce, vl, vr) && 0 <= x < |w.b| && w.b[x] == w.ss && Side(w.b, w.ss, x, k) == 1
    ensures x in vr
    decreases k
  {
    var y := Next(|w.b|, x);
    assert k >= 1 && w.b[y] >= w.ss && (w.b[y] == w.ss ==> Side(w.b, w.ss, y, k - 1) == 1);
    hide *;
    OverParts(w, s, cs, ce, vl, vr);
    if w.b[y] > w.ss {
      var p := OutsidePlace(w, s, cs, ce, vl, vr, x);
      SliceHas(s, ce[w.ss] + 1, Past(w), p);
    } else {
      UpperSlice(w, s, cs, ce, vl, vr);
      UpperComplete(w, s, cs, ce, vl, vr, y, k - 1);
      PredsFrom(w.b, vr, w.ss, x);
    }
  }

  /** The block is not ss only: then every rotation of the big bucket is on a side. */
  ghost predicate Sided(w: Sweep) {
    forall x {:trigger w.b[x]} :: 0 <= x < |w.b| && w.b[x] == w.ss ==> Side(w.b, w.ss, x, |w.b|) != 0
  }

  /** Every rotation of bucket [c, ss] has been drawn. */
  lemma AllDrawn(w: Sweep, s: seq<int>, cs: seq<int>, ce: seq<int>, vl: seq<int>, vr: seq<int>, c: int, y: int)
    requires Over(w, s, cs, ce, vl, vr) && Sided(w) && Rots(w.b, vl) && Rots(w.b, vr)
    requires 0 <= y < |w.b| && Pair(w.b, y) == 256 * c + w.ss && Keys(w.b, 256) && 0 <= w.ss < 256
    ensures y in Preds(w.b, vl, c) + Preds(w.b, vr, c)
  {
    PairRange(w.b, y);
    var z := Next(|w.b|, y);
    assert w.b[z] == w.ss && Side(w.b, w.ss, z, |w.b|) != 0;
    SideValue(w.b, w.ss, z, |w.b|);
    hide *;
    if Side(w.b, w.ss, z, |w.b|) == -1 {
      LowerComplete(w, s, cs, ce, vl, vr, z, |w.b|);
      PredsFrom(w.b, vl, c, y);
    } else {
      UpperComplete(w, s, cs, ce, vl, vr, z, |w.b|);
      PredsFrom(w.b, vr, c, y);
    }
  }

  /** The cursors of a bucket not yet done have met. */
  lemma Met(w: Sweep, s: seq<int>, cs: seq<int>, ce: seq<int>, vl: seq<int>, vr: seq<int>, c: int)
    requires Over(w, s, cs, ce, vl, vr) && Sided(w) && 0 <= c < 256 && |w.done| == 256 && !w.done[c]
    ensures |cs| == |ce| == 256 && cs[c] == ce[c] + 1 && Rots(w.b, vl) && Rots(w.b, vr)
    ensures 0 <= Lo(w, c) <= cs[c] <= Hi(w, c) <= |s| == |w.b|
    ensures s[Lo(w, c)..Hi(w, c)] == Preds(w.b, vl, c) + Preds(w.b, vr, c)
    ensures Drawn(w.b, w.ss, -1, c, Preds(w.b, vl, c)) && Drawn(w.b, w.ss, 1, c, Preds(w.b, vr, c))
  {
    hide *;
    OverParts(w, s, cs, ce, vl, vr);
    StateParts(w, s, cs, ce, vl, vr);
    StateFacts(w, s, cs, ce, vl, vr, c);
    FilledParts(w, s, cs, ce, vl, vr, c);
    PredsDrawn(w.b, w.ss, -1, vl, c);
    PredsDrawn(w.b, w.ss, 1, vr, c);
    DrawnCount(w, s, cs, ce, vl, vr, c);
    Halves(s, Lo(w, c), cs[c], Hi(w, c));
  }

  lemma DrawnCount(w: Sweep, s: seq<int>, cs: seq<int>, ce: seq<int>, vl: seq<int>, vr: seq<int>, c: int)
    requires Over(w, s, cs, ce, vl, vr) && Sided(w) && Rots(w.b, vl) && Rots(w.b, vr) && Keys(w.b, 256) &&
      0 <= w.ss < 256
    requires Drawn(w.b, w.ss, -1, c, Preds(w.b, vl, c)) && Drawn(w.b, w.ss, 1, c, Preds(w.b, vr, c))
    ensures |Preds(w.b, vl, c)| + |Preds(w.b, vr, c)| == Hi(w, c) - Lo(w, c)
  {
    hide *;
    var r := Preds(w.b, vl, c) + Preds(w.b, vr, c);
    forall y | 0 <= y < |w.b| && Pair(w.b, y) == 256 * c + w.ss ensures y in r {
      AllDrawn(w, s, cs, ce, vl, vr, c, y);
    }
    DrawnJoin(w.b, w.ss, c, Preds(w.b, vl, c), Preds(w.b, vr, c));
    PairsAll(w.b, r, 256 * c + w.ss);
    LoHi(w, c);
  }

  lemma Halves(s: seq<int>, a: nat, m: nat, e: nat)
    requires a <= m <= e <= |s|
    ensures s[a..e] == s[a..m] + s[m..e]
  {
  }

  lemma LoHi(w: Sweep, c: int)
    ensures Lo(w, c) == Start(w.b, 256 * c + w.ss) && Hi(w, c) == Start(w.b, 256 * c + w.ss + 1)
  {
  }

  lemma {:induction false} SideValue(b: seq<int>, ss: int, x: int, k: nat)
    requires 0 <= x < |b|
    ensures -1 <= Side(b, ss, x, k) <= 1
    decreases k
  {
    if k > 0 { SideValue(b, ss, Next(|b|, x), k - 1); }
  }

  /** The predecessors drawn from below, then those drawn from above: different and in order. */
  lemma DrawnJoin(b: seq<int>, ss: int, c: int, r1: seq<int>, r2: seq<int>)
    requires Drawn(b, ss, -1, c, r1) && Drawn(b, ss, 1, c, r2)
    ensures Rots(b, r1 + r2) && forall i :: 0 <= i < |r1 + r2| ==> Pair(b, (r1 + r2)[i]) == 256 * c + ss
    ensures forall i, j ::
      0 <= i < j < |r1 + r2| ==> (r1 + r2)[i] != (r1 + r2)[j] && RotationOrder(b)((r1 + r2)[i], (r1 + r2)[j])
  {
    hide RotationOrder;
    hide Side;
    DrawnPair(b, ss, -1, c, r1);
    DrawnPair(b, ss, 1, c, r2);
    hide Pair;
    var r := r1 + r2;
    forall i, j | 0 <= i < j < |r| ensures r[i] != r[j] && RotationOrder(b)(r[i], r[j]) {
      if i < |r1| <= j {
        assert r[i] == r1[i] && r[j] == r2[j - |r1|];
        AcrossOrder(b, ss, r[i], r[j]);
      } else if j < |r1| {
        assert r[i] == r1[i] && r[j] == r1[j];
      } else {
        assert r[i] == r2[i - |r1|] && r[j] == r2[j - |r1|];
      }
    }
  }

  lemma AcrossOrder(b: seq<int>, ss: int, x: int, y: int)
    requires 0 <= x < |b| && 0 <= y < |b| && b[x] == b[y]
    requires Side(b, ss, Next(|b|, x), |b|) < 0 < Side(b, ss, Next(|b|, y), |b|)
    ensures x != y && RotationOrder(b)(x, y)
  {
    SideOrder(b, ss, Next(|b|, x), Next(|b|, y), |b|);
    PredOrder(b, x, y);
  }

  /* ---------- what step 2 achieves ---------- */

  /** All small buckets [c, ss] are in order; others, and those of big buckets done before, are as
      they were. */
  ghost predicate Synthesised(w: Sweep, s: seq<int>) {
    Valid(w) && Bucketed(w.b, s) &&
    (forall k {:trigger Done(w.b, s, k)} :: 0 <= k < 65536 && k % 256 == w.ss ==> Done(w.b, s, k)) &&
    (forall p {:trigger s[p]} :: 0 <= p < |w.b| && (Next2(w, p) != w.ss || w.done[First1(w, p)]) ==> s[p] == w.was[p])
  }

  /** A filled bucket, as a whole. */
  lemma WholeBucket(w: Sweep, s: seq<int>, cs: seq<int>, ce: seq<int>, vl: seq<int>, vr: seq<int>, c: int)
    requires Over(w, s, cs, ce, vl, vr) && Sided(w) && 0 <= c < 256 && |w.done| == 256 && !w.done[c]
    ensures Lo(w, c) <= Hi(w, c) <= |s| == |w.b|
    ensures forall p :: Lo(w, c) <= p < Hi(w, c) ==> 0 <= s[p] < |w.b| && Pair(w.b, s[p]) == 256 * c + w.ss
    ensures forall p, q :: Lo(w, c) <= p < q < Hi(w, c) ==> s[p] != s[q] && RotationOrder(w.b)(s[p], s[q])
  {
    hide *;
    Met(w, s, cs, ce, vl, vr, c);
    DrawnJoin(w.b, w.ss, c, Preds(w.b, vl, c), Preds(w.b, vr, c));
    SliceEntries(w.b, s, Lo(w, c), Hi(w, c), Preds(w.b, vl, c) + Preds(w.b, vr, c), 256 * c + w.ss);
  }

  lemma SliceEntries(b: seq<int>, s: seq<int>, a: nat, e: nat, r: seq<int>, k: int)
    requires a <= e <= |s| && s[a..e] == r && Rots(b, r) && (forall i :: 0 <= i < |r| ==> Pair(b, r[i]) == k)
    requires forall i, j :: 0 <= i < j < |r| ==> r[i] != r[j] && RotationOrder(b)(r[i], r[j])
    ensures forall p :: a <= p < e ==> 0 <= s[p] < |b| && Pair(b, s[p]) == k
    ensures forall p, q :: a <= p < q < e ==> s[p] != s[q] && RotationOrder(b)(s[p], s[q])
  {
    hide Pair;
    hide RotationOrder;
    assert forall p :: a <= p < e ==> s[p] == r[p - a];
  }

  /** Lists that differ only within buckets, where they are lists of different rotations again. */
  lemma Rebucketed(b: seq<int>, s: seq<int>)
    requires |s| == |b| && forall p {:trigger s[p]} :: 0 <= p < |b| ==> 0 <= s[p] < |b| && In(b, Pair(b, s[p]), p)
    requires forall k, p, q {:trigger In(b, k, p), In(b, k, q)} ::
      0 <= p < q < |b| && In(b, k, p) && In(b, k, q) ==> s[p] != s[q]
    ensures Bucketed(b, s)
  {
    forall p, q | 0 <= p < q < |b| ensures s[p] != s[q] {
      assert In(b, Pair(b, s[p]), p) && In(b, Pair(b, s[q]), q);
    }
  }

  /** Entries outside the buckets being filled are as they were. */
  lemma KeptEntry(w: Sweep, s: seq<int>, cs: seq<int>, ce: seq<int>, vl: seq<int>, vr: seq<int>, p: int)
    requires State(w, s, cs, ce, vl, vr) && 0 <= p < |w.b| && |w.done| == 256
    requires Next2(w, p) != w.ss || w.done[First1(w, p)]
    ensures |s| == |w.b| && s[p] == w.was[p]
  {
    hide Swept;
    var c := First1(w, p);
    StateFacts(w, s, cs, ce, vl, vr, c);
    if Next2(w, p) == w.ss {
      assert In(w.b, Pair(w.b, w.was[p]), p);
      assert Pair(w.b, w.was[p]) == 256 * c + w.ss;
    }
    assert Open(w, cs, ce, p);
  }

  /** Position p holds a rotation of the bucket p is in. */
  lemma EntryRight(w: Sweep, s: seq<int>, cs: seq<int>, ce: seq<int>, vl: seq<int>, vr: seq<int>, p: int)
    requires Over(w, s, cs, ce, vl, vr) && Sided(w) && 0 <= p < |w.b|
    ensures |s| == |w.b| && 0 <= s[p] < |w.b| && In(w.b, Pair(w.b, s[p]), p)
  {
    OverParts(w, s, cs, ce, vl, vr);
    StateParts(w, s, cs, ce, vl, vr);
    hide State;
    hide Over;
    hide Sided;
    var c := First1(w, p);
    assert In(w.b, Pair(w.b, w.was[p]), p);
    if Next2(w, p) == w.ss && !w.done[c] {
      assert Pair(w.b, w.was[p]) == 256 * c + w.ss;
      LoHi(w, c);
      WholeBucket(w, s, cs, ce, vl, vr, c);
    } else {
      KeptEntry(w, s, cs, ce, vl, vr, p);
    }
  }

  lemma BucketDistinct(w: Sweep, s: seq<int>, cs: seq<int>, ce: seq<int>, vl: seq<int>, vr: seq<int>, k: int, p: int,
      q: int)
    requires Over(w, s, cs, ce, vl, vr) && Sided(w) && 0 <= p < q < |w.b| && In(w.b, k, p) && In(w.b, k, q)
    ensures |s| == |w.b| && s[p] != s[q]
  {
    OverParts(w, s, cs, ce, vl, vr);
    StateParts(w, s, cs, ce, vl, vr);
    hide State;
    hide Over;
    hide Sided;
    EntryPair(w.b, w.was, k, p);
    EntryPair(w.b, w.was, k, q);
    PairRange(w.b, w.was[p]);
    PairRange(w.b, w.was[q]);
    var c := First1(w, p);
    assert First1(w, q) == c && Next2(w, q) == Next2(w, p);
    if Next2(w, p) == w.ss && !w.done[c] {
      assert k == 256 * c + w.ss;
      LoHi(w, c);
      WholeBucket(w, s, cs, ce, vl, vr, c);
    } else {
      KeptEntry(w, s, cs, ce, vl, vr, p);
      KeptEntry(w, s, cs, ce, vl, vr, q);
      BucketedIs(w.b, w.was);
    }
  }

  lemma BucketDone(w: Sweep, s: seq<int>, cs: seq<int>, ce: seq<int>, vl: seq<int>, vr: seq<int>, c: int)
    requires Over(w, s, cs, ce, vl, vr) && Sided(w) && 0 <= c < 256
    ensures Done(w.b, s, 256 * c + w.ss)
  {
    OverParts(w, s, cs, ce, vl, vr);
    StateParts(w, s, cs, ce, vl, vr);
    LoHi(w, c);
    hide State;
    hide Over;
    hide Sided;
    hide RotationOrder;
    if w.done[c] {
      assert Done(w.b, w.was, 256 * c + w.ss);
      forall p | Lo(w, c) <= p < Hi(w, c) ensures s[p] == w.was[p] {
        EntryPair(w.b, w.was, 256 * c + w.ss, p);
        PairRange(w.b, w.was[p]);
        KeptEntry(w, s, cs, ce, vl, vr, p);
      }
    } else {
      WholeBucket(w, s, cs, ce, vl, vr, c);
    }
  }

  lemma SidedBucketed(w: Sweep, s: seq<int>, cs: seq<int>, ce: seq<int>, vl: seq<int>, vr: seq<int>)
    requires Over(w, s, cs, ce, vl, vr) && Sided(w)
    ensures Bucketed(w.b, s)
  {
    OverParts(w, s, cs, ce, vl, vr);
    hide *;
    forall p {:trigger s[p]} | 0 <= p < |w.b| ensures 0 <= s[p] < |w.b| && In(w.b, Pair(w.b, s[p]), p) {
      EntryRight(w, s, cs, ce, vl, vr, p);
    }
    forall k, p, q {:trigger In(w.b, k, p), In(w.b, k, q)} | 0 <= p < q < |w.b| && In(w.b, k, p) && In(w.b, k, q)
      ensures s[p] != s[q] {
      BucketDistinct(w, s, cs, ce, vl, vr, k, p, q);
    }
    Rebucketed(w.b, s);
  }

  lemma SidedDone(w: Sweep, s: seq<int>, cs: seq<int>, ce: seq<int>, vl: seq<int>, vr: seq<int>)
    requires Over(w, s, cs, ce, vl, vr) && Sided(w)
    ensures Synthesised(w, s) && |cs| == |ce| == 256 && 0 <= w.ss < 256 && cs[w.ss] - 1 == ce[w.ss]
  {
    hide *;
    OverParts(w, s, cs, ce, vl, vr);
    StateParts(w, s, cs, ce, vl, vr);
    Met(w, s, cs, ce, vl, vr, w.ss);
    SidedBucketed(w, s, cs, ce, vl, vr);
    forall k | 0 <= k < 65536 && k % 256 == w.ss ensures Done(w.b, s, k) {
      BucketDone(w, s, cs, ce, vl, vr, k / 256);
      assert k == 256 * (k / 256) + w.ss;
    }
    forall p {:trigger s[p]} | 0 <= p < |w.b| && (Next2(w, p) != w.ss || w.done[First1(w, p)])
      ensures s[p] == w.was[p] {
      KeptEntry(w, s, cs, ce, vl, vr, p);
    }
    SynthesisedIntro(w, s);
  }

  lemma SynthesisedIntro(w: Sweep, s: seq<int>)
    requires Valid(w) && Bucketed(w.b, s) && |s| == |w.b| == |w.was| && |w.done| == 256
    requires forall k {:trigger Done(w.b, s, k)} :: 0 <= k < 65536 && k % 256 == w.ss ==> Done(w.b, s, k)
    requires forall p {:trigger s[p]} ::
      0 <= p < |w.b| && (Next2(w, p) != w.ss || w.done[First1(w, p)]) ==> s[p] == w.was[p]
    ensures Synthesised(w, s)
  {
    hide Done;
  }

  /* ---------- a block of one byte only ---------- */

  lemma {:induction false} SameByte(b: seq<int>, ss: int, x: nat, y: nat, k: nat)
    requires x < |b| && y < |b| && forall i :: 0 <= i < |b| ==> b[i] == ss
    ensures Cmp(b, x, y, k) == 0 && Side(b, ss, x, k) == 0
    decreases k
  {
    if k > 0 { SameByte(b, ss, Next(|b|, x), Next(|b|, y), k - 1); }
  }

  lemma SameByteNone(b: seq<int>, ss: int, side: int, v: seq<int>)
    requires Swept(b, ss, side, v) && side != 0 && forall i :: 0 <= i < |b| ==> b[i] == ss
    ensures v == []
  {
    if v != [] {
      SameByte(b, ss, v[0], v[0], |b|);
      assert false;
    }
  }

  /** All rotations are in the big bucket's own small one. */
  lemma SameByteBounds(w: Sweep)
    requires Valid(w) && forall i :: 0 <= i < |w.b| ==> w.b[i] == w.ss
    ensures Lo(w, w.ss) == 0 && Hi(w, w.ss) >= |w.b| == |w.was|
  {
    hide Start;
    hide Done;
    assert In(w.b, Pair(w.b, w.was[0]), 0) && In(w.b, Pair(w.b, w.was[|w.b| - 1]), |w.b| - 1);
  }

  lemma StateOpen(w: Sweep, s: seq<int>, cs: seq<int>, ce: seq<int>, vl: seq<int>, vr: seq<int>, p: nat)
    requires State(w, s, cs, ce, vl, vr) && p < |w.b| && cs[w.ss] == 0 && ce[w.ss] == |w.b| - 1
    requires forall i :: 0 <= i < |w.b| ==> w.b[i] == w.ss
    ensures p < |s| && p < |w.was| && s[p] == w.was[p]
  {
    hide Swept;
    hide FilledAt;
    hide Done;
    hide Start;
    assert Open(w, cs, ce, p);
  }

  /** Nothing is copied, and everything is in order. */
  lemma SameByteDone(w: Sweep, s: seq<int>, cs: seq<int>, ce: seq<int>, vl: seq<int>, vr: seq<int>)
    requires Over(w, s, cs, ce, vl, vr) && forall i :: 0 <= i < |w.b| ==> w.b[i] == w.ss
    ensures Synthesised(w, s) && |cs| == |ce| == 256 && 0 <= w.ss < 256 && cs[w.ss] == 0 && ce[w.ss] == |w.b| - 1
  {
    hide *;
    OverParts(w, s, cs, ce, vl, vr);
    StateParts(w, s, cs, ce, vl, vr);
    SameByteNone(w.b, w.ss, -1, vl);
    SameByteNone(w.b, w.ss, 1, vr);
    SameByteBounds(w);
    assert |vl| == 0 && |vr| == 0;
    forall p | 0 <= p < |s| ensures s[p] == w.was[p] { StateOpen(w, s, cs, ce, vl, vr, p); }
    assert s == w.was;
    WasBucketed(w);
    forall c: int ensures Done(w.b, s, c) { SameByteInOrder(w.b, w.ss, s, c); }
    SynthesisedIntro(w, s);
  }

  lemma WasBucketed(w: Sweep)
    requires Valid(w)
    ensures Bucketed(w.b, w.was)
  {
    hide Bucketed;
    hide Done;
  }

  lemma SameByteInOrder(b: seq<int>, ss: int, s: seq<int>, c: int)
    requires Bucketed(b, s) && forall i :: 0 <= i < |b| ==> b[i] == ss
    ensures Done(b, s, c)
  {
    forall x, y | 0 <= x < |b| && 0 <= y < |b| ensures RotationOrder(b)(x, y) { SameByte(b, ss, x, y, |b|); }
  }

  /** Both scans over: bucket [c, ss] is complete for every c, and the cursors of [ss, ss] have met,
      unless the block holds no other byte. */
  lemma ScanDone(w: Sweep, s: seq<int>, cs: seq<int>, ce: seq<int>, j: int)
    requires RightScan(w, s, cs, ce, j) && j <= ce[w.ss]
    ensures Synthesised(w, s) && |cs| == |ce| == 256 && 0 <= w.ss < 256
    ensures cs[w.ss] - 1 == ce[w.ss] || (cs[w.ss] == 0 && ce[w.ss] == |w.b| - 1)
  {
    var vl, vr := s[First(w)..cs[w.ss]], s[j + 1..Past(w)];
    OverIntro(w, s, cs, ce, j);
    hide Over;
    hide RightScan;
    if Sided(w) {
      hide *;
      SidedDone(w, s, cs, ce, vl, vr);
    } else {
      var x :| 0 <= x < |w.b| && w.b[x] == w.ss && Side(w.b, w.ss, x, |w.b|) == 0;
      forall y | 0 <= y < |w.b| ensures w.b[y] == w.ss { SideZeroAll(w.b, w.ss, x, y); }
      hide *;
      SameByteDone(w, s, cs, ce, vl, vr);
    }
  }

  lemma OverIntro(w: Sweep, s: seq<int>, cs: seq<int>, ce: seq<int>, j: int)
    requires RightScan(w, s, cs, ce, j) && j <= ce[w.ss]
    ensures Over(w, s, cs, ce, s[First(w)..cs[w.ss]], s[j + 1..Past(w)])
  {
    hide State;
  }
}
