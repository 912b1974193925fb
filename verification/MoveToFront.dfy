/** Move-to-front: the plain list, the compressor's in-place update of yy, and the decompressor's
    list of 16 segments sliding down a 4096-byte array. */
module MoveToFront {

  /** The entry at j moved to the front. */
  function ToFront(y: seq<int>, j: nat): (y': seq<int>)
    requires j < |y|
    ensures |y'| == |y| && y'[0] == y[j]
    ensures forall k :: 1 <= k <= j ==> y'[k] == y[k - 1]
    ensures forall k :: j < k < |y| ==> y'[k] == y[k]
  {
    [y[j]] + y[..j] + y[j + 1..]
  }

  lemma ToFrontUnique(y: seq<int>, j: nat, z: seq<int>)
    requires j < |y| && |z| == |y| && z[0] == y[j]
    requires forall k :: 1 <= k <= j ==> z[k] == y[k - 1]
    requires forall k :: j < k < |y| ==> z[k] == y[k]
    ensures z == ToFront(y, j)
  {
  }

  /* ---------- the compressor's list ---------- */

  /** While searching: the first m entries have moved up one, the entry last picked up is in hand. */
  ghost predicate Searching(z: seq<int>, y: seq<int>, m: nat, hand: int) {
    |z| == |y| && 1 <= m < |y| && hand == y[m] &&
    (forall k :: 1 <= k <= m ==> z[k] == y[k - 1]) && forall k :: m < k < |y| ==> z[k] == y[k]
  }

  /** The register loop of generateMTFValues for a symbol not already at the front. */
  method MoveUp(yy: array<int>, ll: int, ghost at: nat) returns (j: int)
    requires 0 < at < yy.Length && yy[at] == ll && forall k :: 0 <= k < at ==> yy[k] != ll
    modifies yy
    ensures j == at && yy[..] == ToFront(old(yy[..]), at)
  {
    ghost var y := yy[..];
    var rtmp := yy[1];
    yy[1] := yy[0];
    j := 1;
    while ll != rtmp
      invariant 1 <= j <= at && Searching(yy[..], y, j, rtmp)
      decreases at - j
    {
      j := j + 1;
      var rtmp2 := rtmp;
      rtmp := yy[j];
      yy[j] := rtmp2;
    }
    yy[0] := rtmp;
    ToFrontUnique(y, at, yy[..]);
  }

  /* ---------- the decompressor's list ---------- */

  const MTFL_SIZE := 16

  /** The segments lie in order, apart, inside the array. */
  ghost predicate Spaced(base: seq<int>) {
    |base| == 16 && base[0] >= 0 && base[15] <= 4080 &&
    forall k, m :: 0 <= k < m < 16 ==> base[k] + 16 * (m - k) <= base[m]
  }

  /** Entry o of segment k. */
  ghost function Entry(a: seq<int>, base: seq<int>, k: int, o: int): int
    requires |a| == 4096 && Spaced(base) && 0 <= k < 16 && 0 <= o < 16
  {
    a[base[k] + o]
  }

  /** The array and its segment starts represent the list y. */
  ghost predicate Blocked(a: seq<int>, base: seq<int>, y: seq<int>) {
    |a| == 4096 && Spaced(base) && |y| == 256 &&
    forall k, o :: 0 <= k < 16 && 0 <= o < 16 ==> Entry(a, base, k, o) == y[16 * k + o]
  }

  lemma BlockedAt(a: seq<int>, base: seq<int>, y: seq<int>, k: int, o: int)
    requires Blocked(a, base, y) && 0 <= k < 16 && 0 <= o < 16
    ensures |a| == 4096 && |base| == 16 && 0 <= base[k] <= 4080 && |y| == 256
    ensures a[base[k] + o] == y[16 * k + o]
  {
    assert Entry(a, base, k, o) == y[16 * k + o];
  }

  /** In the segment from p, entries down to offset t have moved up one, from offset off. */
  ghost predicate SegmentShift(a': seq<int>, a: seq<int>, p: int, off: int, t: int) {
    |a'| == |a| == 4096 && 0 <= p <= 4080 && 0 <= t <= off < 16 &&
    (forall k :: p + t < k <= p + off ==> a'[k] == a[k - 1]) &&
    forall k :: 0 <= k < 4096 && !(p + t < k <= p + off) ==> a'[k] == a[k]
  }

  /* the short case: within the first segment */

  lemma ShortDone(a': seq<int>, a: seq<int>, base: seq<int>, y: seq<int>, nn: int)
    requires Blocked(a, base, y) && 0 <= nn < 16 && SegmentShift(a', a, base[0], nn, 0)
    ensures Blocked(a'[base[0] := a[base[0] + nn]], base, ToFront(y, nn))
  {
    var f := a'[base[0] := a[base[0] + nn]];
    forall k, o | 0 <= k < 16 && 0 <= o < 16 ensures Entry(f, base, k, o) == ToFront(y, nn)[16 * k + o] {
      BlockedAt(a, base, y, k, o);
      if k == 0 {
        BlockedAt(a, base, y, 0, nn);
        if o > 0 { BlockedAt(a, base, y, 0, o - 1); }
      } else {
        assert base[0] + 16 * (k - 0) <= base[k];
      }
    }
  }

  lemma ShiftNone(a: seq<int>, p: int, off: int)
    requires |a| == 4096 && 0 <= p <= 4080 && 0 <= off < 16
    ensures SegmentShift(a, a, p, off, off)
  {
  }

  /** One entry moves up by one place. */
  method MoveOne(mtfa: array<int>, p: int, t: int, ghost a: seq<int>, ghost off: int)
    requires SegmentShift(mtfa[..], a, p, off, t) && t > 0
    modifies mtfa
    ensures SegmentShift(mtfa[..], a, p, off, t - 1)
  {
    mtfa[p + t] := mtfa[p + t - 1];
  }

  /** nn below 16: shift inside the first segment, four entries at a time, then one by one. */
  method DecodeShort(mtfa: array<int>, mtfbase: array<int>, nn0: int, ghost y: seq<int>) returns (uc: int)
    requires mtfa != mtfbase && Blocked(mtfa[..], mtfbase[..], y) && 0 <= nn0 < 16
    modifies mtfa
    ensures |y| == 256 && uc == y[nn0] && Blocked(mtfa[..], mtfbase[..], ToFront(y, nn0))
  {
    hide Blocked;
    ghost var a := mtfa[..];
    BlockedAt(a, mtfbase[..], y, 0, nn0);
    var pp, nn := mtfbase[0], nn0;
    uc := mtfa[pp + nn];
    hide SegmentShift;
    ShiftNone(a, pp, nn0);
    while nn > 3
      invariant SegmentShift(mtfa[..], a, pp, nn0, nn) && 0 <= nn <= nn0
    {
      MoveOne(mtfa, pp, nn, a, nn0);
      MoveOne(mtfa, pp, nn - 1, a, nn0);
      MoveOne(mtfa, pp, nn - 2, a, nn0);
      MoveOne(mtfa, pp, nn - 3, a, nn0);
      nn := nn - 4;
    }
    while nn > 0
      invariant SegmentShift(mtfa[..], a, pp, nn0, nn) && 0 <= nn <= nn0
    {
      MoveOne(mtfa, pp, nn, a, nn0);
      nn := nn - 1;
    }
    ShortDone(mtfa[..], a, mtfbase[..], y, nn0);
    mtfa[pp] := uc;
  }

  /* the general case: through several segments */

  /** The carry loop with segments above l done, seen from the segments' old starts: the entries
      below segment lno are where they were, the segments already served have their new first
      entry just below their old start, and segment lno has made room. */
  ghost predicate Carried(a: seq<int>, b: seq<int>, base: seq<int>, y: seq<int>, lno: int, off: int, l: int) {
    |a| == 4096 && Spaced(base) && |b| == 16 && |y| == 256 && base[0] > 0 &&
    0 <= l <= lno < 16 && 1 <= lno && 0 <= off < 16 &&
    (forall k :: 0 <= k < 16 ==>
      b[k] == if k == lno && l == lno then base[k] + 1 else if l < k < lno then base[k] - 1 else base[k]) &&
    (forall k, o :: 0 <= k < 16 && k != lno && 0 <= o < 16 ==> Entry(a, base, k, o) == y[16 * k + o]) &&
    (forall k :: l < k < lno ==> 0 < base[k] && a[base[k] - 1] == y[16 * k - 1]) &&
    (forall o :: 1 <= o <= off ==> Entry(a, base, lno, o) == y[16 * lno + o - 1]) &&
    (forall o :: off < o < 16 ==> Entry(a, base, lno, o) == y[16 * lno + o]) &&
    (l < lno ==> Entry(a, base, lno, 0) == y[16 * lno - 1])
  }

  lemma Order(base: seq<int>, k: int, m: int)
    requires Spaced(base) && 0 <= k <= m < 16
    ensures base[k] + 16 * (m - k) <= base[m] && 0 <= base[k] <= 4080
  {
    assert k > 0 ==> base[0] + 16 * (k - 0) <= base[k];
    assert k < 15 ==> base[k] + 16 * (15 - k) <= base[15];
  }

  lemma CarryStart(a': seq<int>, a: seq<int>, base: seq<int>, y: seq<int>, lno: int, off: int)
    requires Blocked(a, base, y) && 1 <= lno < 16 && 0 <= off < 16 && base[0] > 0
    requires SegmentShift(a', a, base[lno], off, 0)
    ensures Carried(a', base[lno := base[lno] + 1], base, y, lno, off, lno)
  {
    forall k, o | 0 <= k < 16 && k != lno && 0 <= o < 16 ensures Entry(a', base, k, o) == y[16 * k + o] {
      BlockedAt(a, base, y, k, o);
      if k < lno { Order(base, k, lno); } else { Order(base, lno, k); }
    }
    forall o | 0 <= o < 16
      ensures Entry(a', base, lno, o) == if 1 <= o <= off then y[16 * lno + o - 1] else Entry(a, base, lno, o) {
      if o > 0 { BlockedAt(a, base, y, lno, o - 1); }
    }
    forall o | off < o < 16 ensures Entry(a, base, lno, o) == y[16 * lno + o] {
      BlockedAt(a, base, y, lno, o);
    }
  }

  lemma CarryBounds(a: seq<int>, b: seq<int>, base: seq<int>, y: seq<int>, lno: int, off: int, l: int)
    requires Carried(a, b, base, y, lno, off, l) && l > 0
    ensures 0 <= b[l] - 1 < 4096 && 0 <= b[l - 1] + 15 < 4096 && a[b[l - 1] + 15] == y[16 * l - 1]
    ensures b[l] - 1 == if l == lno then base[l] else base[l] - 1
  {
    Order(base, l - 1, l);
    Order(base, l, lno);
    assert Entry(a, base, l - 1, 15) == y[16 * (l - 1) + 15];
  }

  lemma CarryStep(a: seq<int>, b: seq<int>, base: seq<int>, y: seq<int>, lno: int, off: int, l: int)
    requires Carried(a, b, base, y, lno, off, l) && l > 0
    requires 0 <= b[l] - 1 < 4096 && 0 <= b[l - 1] + 15 < 4096
    ensures Carried(a[b[l] - 1 := a[b[l - 1] + 15]], b[l := b[l] - 1], base, y, lno, off, l - 1)
  {
    CarryBounds(a, b, base, y, lno, off, l);
    var f, w := a[b[l] - 1 := a[b[l - 1] + 15]], b[l] - 1;
    forall k, o | 0 <= k < 16 && 0 <= o < 16
      ensures Entry(f, base, k, o) == if k == lno == l && o == 0 then y[16 * l - 1] else Entry(a, base, k, o)
    {
      CarriedEntry(a, b, base, y, lno, off, l, k, o);
    }
    forall k | l < k < lno ensures base[k] - 1 != w {
      Order(base, l, k);
    }
    Order(base, l, lno);
  }

  lemma CarriedEntry(a: seq<int>, b: seq<int>, base: seq<int>, y: seq<int>, lno: int, off: int, l: int, k: int, o: int)
    requires Carried(a, b, base, y, lno, off, l) && l > 0 && 0 <= k < 16 && 0 <= o < 16
    requires 0 <= b[l] - 1 < 4096 && 0 <= b[l - 1] + 15 < 4096
    ensures Entry(a[b[l] - 1 := a[b[l - 1] + 15]], base, k, o) ==
            if k == lno == l && o == 0 then y[16 * l - 1] else Entry(a, base, k, o)
  {
    CarryBounds(a, b, base, y, lno, off, l);
    var w := b[l] - 1;
    if base[k] + o == w {
      CellOwner(base, lno, l, k, o, w);
      if k == l - 1 {
        assert Entry(a, base, l - 1, 15) == y[16 * (l - 1) + 15];
      }
    }
  }

  /** The cell written is the last of the segment below, if it belongs to any other segment. */
  lemma CellOwner(base: seq<int>, lno: int, l: int, k: int, o: int, w: int)
    requires Spaced(base) && 1 <= l <= lno < 16 && 0 <= k < 16 && 0 <= o < 16 && base[k] + o == w
    requires w == if l == lno then base[l] else base[l] - 1
    ensures (k == lno == l && o == 0) || (k == l - 1 && o == 15)
  {
    if k < l { Order(base, k, l); } else if k > l { Order(base, l, k); }
  }

  lemma SpacedDown(base: seq<int>, g: seq<int>, lno: int)
    requires Spaced(base) && |g| == 16 && base[0] > 0 && 1 <= lno < 16
    requires forall k :: 0 <= k < 16 ==> g[k] == if k < lno then base[k] - 1 else base[k]
    ensures Spaced(g)
  {
    forall k, m | 0 <= k < m < 16 ensures g[k] + 16 * (m - k) <= g[m] {
      Order(base, k, m);
    }
  }

  /** After the carry, with the moved entry written in front: the list with that entry first. */
  lemma CarryDone(a: seq<int>, b: seq<int>, base: seq<int>, y: seq<int>, lno: int, off: int)
    requires Carried(a, b, base, y, lno, off, 0)
    ensures 0 <= b[0] - 1 < 4096
    ensures Blocked(a[b[0] - 1 := y[16 * lno + off]], b[0 := b[0] - 1], ToFront(y, 16 * lno + off))
  {
    Order(base, 0, 1);
    var f, g := a[b[0] - 1 := y[16 * lno + off]], b[0 := b[0] - 1];
    SpacedDown(base, g, lno);
    forall k, o | 0 <= k < 16 && 0 <= o < 16 ensures Entry(f, g, k, o) == ToFront(y, 16 * lno + off)[16 * k + o] {
      CarryEntry(a, b, base, y, lno, off, f, g, k, o);
    }
  }

  lemma CarryEntry(a: seq<int>, b: seq<int>, base: seq<int>, y: seq<int>, lno: int, off: int,
                   f: seq<int>, g: seq<int>, k: int, o: int)
    requires Carried(a, b, base, y, lno, off, 0) && 0 <= b[0] - 1 < 4096
    requires f == a[b[0] - 1 := y[16 * lno + off]] && g == b[0 := b[0] - 1] && Spaced(g)
    requires 0 <= k < 16 && 0 <= o < 16
    ensures Entry(f, g, k, o) == ToFront(y, 16 * lno + off)[16 * k + o]
  {
    Order(base, 0, k);
    if k < lno {
      assert g[k] == base[k] - 1;
      if o > 0 {
        assert Entry(a, base, k, o - 1) == y[16 * k + (o - 1)];
      }
    } else {
      assert g[k] == base[k];
      assert Entry(f, g, k, o) == Entry(a, base, k, o);
    }
  }

  lemma BlockedSpaced(a: seq<int>, base: seq<int>, y: seq<int>)
    requires Blocked(a, base, y)
    ensures Spaced(base) && |a| == 4096 && |y| == 256
  {
  }

  /** nn from 16 up: make room in segment lno, carry one entry up from each segment below, put the
      entry found in front. */
  method DecodeLong(mtfa: array<int>, mtfbase: array<int>, nn: int, ghost y: seq<int>) returns (uc: int)
    requires mtfa != mtfbase && Blocked(mtfa[..], mtfbase[..], y) && 16 <= nn < 256 && mtfbase[0] > 0
    modifies mtfa, mtfbase
    ensures |y| == 256 && uc == y[nn] && Blocked(mtfa[..], mtfbase[..], ToFront(y, nn))
  {
    hide *;
    ghost var a, base := mtfa[..], mtfbase[..];
    var lno, off := nn / 16, nn % 16;
    BlockedAt(a, base, y, lno, off);
    BlockedSpaced(a, base, y);
    var pp := mtfbase[lno] + off;
    uc := mtfa[pp];
    ShiftStart(a, base[lno], off);
    while pp > mtfbase[lno]
      invariant mtfbase[..] == base && base[lno] <= pp <= base[lno] + off
      invariant SegmentShift(mtfa[..], a, base[lno], off, pp - base[lno])
    {
      ShiftStep(mtfa[..], a, base[lno], off, pp - base[lno]);
      mtfa[pp] := mtfa[pp - 1];
      pp := pp - 1;
    }
    CarryStart(mtfa[..], a, base, y, lno, off);
    mtfbase[lno] := mtfbase[lno] + 1;
    assert mtfbase[..] == base[lno := base[lno] + 1];
    var l := lno;
    while l > 0
      invariant 0 <= l <= lno
      invariant Carried(mtfa[..], mtfbase[..], base, y, lno, off, l)
    {
      CarryBounds(mtfa[..], mtfbase[..], base, y, lno, off, l);
      CarryStep(mtfa[..], mtfbase[..], base, y, lno, off, l);
      mtfbase[l] := mtfbase[l] - 1;
      mtfa[mtfbase[l]] := mtfa[mtfbase[l - 1] + 15];
      l := l - 1;
    }
    CarryDone(mtfa[..], mtfbase[..], base, y, lno, off);
    mtfbase[0] := mtfbase[0] - 1;
    mtfa[mtfbase[0]] := uc;
  }

  lemma ShiftStart(a: seq<int>, p: int, off: int)
    requires |a| == 4096 && 0 <= p <= 4080 && 0 <= off < 16
    ensures SegmentShift(a, a, p, off, off)
  {
  }

  lemma ShiftStep(a': seq<int>, a: seq<int>, p: int, off: int, t: int)
    requires SegmentShift(a', a, p, off, t) && t > 0
    ensures 0 < p + t < 4096 && |a'| == 4096 && SegmentShift(a'[p + t := a'[p + t - 1]], a, p, off, t - 1)
  {
  }

  /* moving the segments back up */

  /** The entries from index e on have been copied to the top of the array; those below are still
      in their old segments. Segments above ii have their new starts. */
  ghost predicate Rebuilding(a: seq<int>, b: seq<int>, base: seq<int>, y: seq<int>, e: int, ii: int) {
    |a| == 4096 && |y| == 256 && |b| == 16 && Spaced(base) && 0 <= e <= 256 && -1 <= ii <= 15 &&
    16 * (ii + 1) >= e && e >= 16 * ii &&
    (forall k :: 0 <= k < 16 ==> b[k] == if k <= ii then base[k] else 3840 + 16 * k) &&
    (forall x :: 3840 + e <= x < 4096 ==> a[x] == y[x - 3840]) &&
    forall k, o :: 0 <= k < 16 && 0 <= o < 16 && 16 * k + o < e ==> Entry(a, base, k, o) == y[16 * k + o]
  }

  lemma RebuildStart(a: seq<int>, base: seq<int>, y: seq<int>)
    requires Blocked(a, base, y)
    ensures Rebuilding(a, base, base, y, 256, 15)
  {
  }

  lemma RebuildStep(a: seq<int>, b: seq<int>, base: seq<int>, y: seq<int>, e: int, ii: int, jj: int)
    requires Rebuilding(a, b, base, y, e, ii) && 0 <= ii && 0 <= jj < 16 && e == 16 * ii + jj + 1
    ensures 0 <= b[ii] + jj < 4096
    ensures Rebuilding(a[3840 + e - 1 := a[b[ii] + jj]], b, base, y, e - 1, ii)
  {
    Order(base, ii, 15);
    assert Entry(a, base, ii, jj) == y[16 * ii + jj];
    var f := a[3840 + e - 1 := a[b[ii] + jj]];
    forall k, o | 0 <= k < 16 && 0 <= o < 16 && 16 * k + o < e - 1 ensures Entry(f, base, k, o) == y[16 * k + o] {
      Order(base, k, 15);
      assert Entry(a, base, k, o) == y[16 * k + o];
    }
  }

  lemma RebuildSegment(a: seq<int>, b: seq<int>, base: seq<int>, y: seq<int>, ii: int)
    requires Rebuilding(a, b, base, y, 16 * ii, ii) && 0 <= ii
    ensures Rebuilding(a, b[ii := 3840 + 16 * ii], base, y, 16 * ii, ii - 1)
  {
  }

  lemma RebuildDone(a: seq<int>, b: seq<int>, base: seq<int>, y: seq<int>)
    requires Rebuilding(a, b, base, y, 0, -1)
    ensures Blocked(a, b, y) && b[0] == 3840
  {
    assert forall k :: 0 <= k < 16 ==> b[k] == 3840 + 16 * k;
    assert Spaced(b);
    forall k, o | 0 <= k < 16 && 0 <= o < 16 ensures Entry(a, b, k, o) == y[16 * k + o] {
      assert a[3840 + (16 * k + o)] == y[16 * k + o];
    }
  }

  /** The first segment has reached the bottom: copy all segments back to the top, in place. */
  method Rebuild(mtfa: array<int>, mtfbase: array<int>, ghost y: seq<int>)
    requires mtfa != mtfbase && Blocked(mtfa[..], mtfbase[..], y)
    modifies mtfa, mtfbase
    ensures Blocked(mtfa[..], mtfbase[..], y) && mtfbase.Length == 16 && mtfbase[0] == 3840
  {
    hide *;
    ghost var base := mtfbase[..];
    BlockedSpaced(mtfa[..], base, y);
    SpacedLength(base);
    RebuildStart(mtfa[..], base, y);
    var kk, ii := 4095, 15;
    while ii >= 0
      invariant -1 <= ii <= 15 && kk == 3840 + 16 * ii + 15
      invariant Rebuilding(mtfa[..], mtfbase[..], base, y, 16 * ii + 16, ii)
    {
      var jj := 15;
      while jj >= 0
        invariant -1 <= jj <= 15 && kk == 3840 + 16 * ii + jj
        invariant Rebuilding(mtfa[..], mtfbase[..], base, y, 16 * ii + jj + 1, ii)
      {
        RebuildStep(mtfa[..], mtfbase[..], base, y, 16 * ii + jj + 1, ii, jj);
        mtfa[kk] := mtfa[mtfbase[ii] + jj];
        kk, jj := kk - 1, jj - 1;
      }
      RebuildSegment(mtfa[..], mtfbase[..], base, y, ii);
      mtfbase[ii] := kk + 1;
      ii := ii - 1;
    }
    RebuildDone(mtfa[..], mtfbase[..], base, y);
  }

  lemma SpacedLength(base: seq<int>)
    requires Spaced(base)
    ensures |base| == 16
  {
  }

  /** The list at the start of a block: the bytes in order. */
  ghost function Identity(): (y: seq<int>)
    ensures |y| == 256 && forall k :: 0 <= k < 256 ==> y[k] == k
  {
    seq(256, k => k)
  }

  /** MTF init: the identity list at the top of the array. */
  method InitBlocked(mtfa: array<int>, mtfbase: array<int>)
    requires mtfa != mtfbase && mtfa.Length == 4096 && mtfbase.Length == 16
    modifies mtfa, mtfbase
    ensures Blocked(mtfa[..], mtfbase[..], Identity()) && mtfbase[0] > 0
  {
    var kk, ii := 4095, 15;
    while ii >= 0
      invariant -1 <= ii <= 15 && kk == 3840 + 16 * ii + 15
      invariant forall x :: kk < x < 4096 ==> mtfa[x] == x - 3840
      invariant forall k :: ii < k < 16 ==> mtfbase[k] == 3840 + 16 * k
    {
      var jj := 15;
      while jj >= 0
        invariant -1 <= jj <= 15 && kk == 3840 + 16 * ii + jj
        invariant forall x :: kk < x < 4096 ==> mtfa[x] == x - 3840
        invariant forall k :: ii < k < 16 ==> mtfbase[k] == 3840 + 16 * k
      {
        mtfa[kk] := ii * MTFL_SIZE + jj;
        kk, jj := kk - 1, jj - 1;
      }
      mtfbase[ii] := kk + 1;
      ii := ii - 1;
    }
    InitDone(mtfa[..], mtfbase[..]);
  }

  lemma InitDone(a: seq<int>, b: seq<int>)
    requires |a| == 4096 && |b| == 16
    requires forall x :: 3840 <= x < 4096 ==> a[x] == x - 3840
    requires forall k :: 0 <= k < 16 ==> b[k] == 3840 + 16 * k
    ensures Blocked(a, b, Identity())
  {
    assert Spaced(b);
    forall k, o | 0 <= k < 16 && 0 <= o < 16 ensures Entry(a, b, k, o) == Identity()[16 * k + o] {
      assert a[3840 + (16 * k + o)] == 16 * k + o;
    }
  }

  /** One decoding step refines the plain list: the nn-th entry comes out and moves to the front. */
  method DecodeStep(mtfa: array<int>, mtfbase: array<int>, nn: int, ghost y: seq<int>) returns (uc: int)
    requires mtfa != mtfbase && 0 <= nn < 256 && mtfbase.Length == 16
    requires Blocked(mtfa[..], mtfbase[..], y) && mtfbase[0] > 0
    modifies mtfa, mtfbase
    ensures |y| == 256 && uc == y[nn]
    ensures Blocked(mtfa[..], mtfbase[..], ToFront(y, nn)) && mtfbase[0] > 0
  {
    hide *;
    BlockedSpaced(mtfa[..], mtfbase[..], y);
    if nn < 16 {
      uc := DecodeShort(mtfa, mtfbase, nn, y);
      return;
    }
    uc := DecodeLong(mtfa, mtfbase, nn, y);
    SpacedAbove(mtfa[..], mtfbase[..], ToFront(y, nn));
    if mtfbase[0] == 0 {
      Rebuild(mtfa, mtfbase, ToFront(y, nn));
    }
  }

  lemma SpacedAbove(a: seq<int>, base: seq<int>, y: seq<int>)
    requires Blocked(a, base, y)
    ensures |base| == 16 && base[0] >= 0
  {
  }
}
