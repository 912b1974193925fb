/** deflate.c, the hash chains: head and prev over the window, INSERT_STRING, and what every chain keeps
    when strings are inserted, links are overwritten and the window slides. */
module DeflateChains {
  import opened ByteSeq
  import Bits
  import opened DeflateHash

  /** The window, of which the first end bytes are data, and the tables over it. own says which string
      each cell of prev was last written for; it is negative where there is none in the window. */
  datatype View = View(m: bv32, s: bv32, wsize: nat, w: seq<int>, end: nat, head: seq<int>, prev: seq<int>,
                       own: seq<int>)

  ghost predicate Shape(v: View) {
    Proper(v.m, v.s) && v.wsize >= 512 && |v.w| == 2 * v.wsize && AreBytes(v.w) && v.end <= |v.w| &&
    |v.head| == Size(v.m) && |v.prev| == v.wsize && |v.own| == v.wsize
  }

  /** The hash of three bytes. */
  ghost function KeyOf(m: bv32, s: bv32, a: int, b: int, c: int): (h: nat)
    requires Proper(m, s) && 0 <= a < 256 && 0 <= b < 256 && 0 <= c < 256
    ensures h < Size(m)
  {
    UpdateFits(m, s, Two(m, s, 0, Word(a), Word(b)), Word(c));
    Index(Update(m, s, Two(m, s, 0, Word(a), Word(b)), Word(c)))
  }

  /** The hash of the string at p. */
  ghost function Key(v: View, p: int): (h: nat)
    requires Shape(v) && 0 <= p && p + 2 < |v.w|
    ensures h < |v.head|
  {
    KeyOf(v.m, v.s, v.w[p], v.w[p + 1], v.w[p + 2])
  }

  /** A string that was inserted: its cell of prev is its own, or that of one a window later. */
  ghost predicate OnChain(v: View, p: int)
    requires Shape(v)
  {
    0 < p && p + 2 < v.end && v.own[p % v.wsize] >= p
  }

  /** Where a chain may go from a string at p with hash h. */
  ghost predicate Link(v: View, q: int, p: int, h: nat)
    requires Shape(v)
  {
    q == 0 || (OnChain(v, q) && q < p && Key(v, q) == h)
  }

  ghost predicate HeadOk(v: View, h: nat)
    requires Shape(v) && h < |v.head|
  {
    Link(v, v.head[h], v.end, h)
  }

  ghost predicate OwnOk(v: View, i: nat, top: int)
    requires Shape(v) && i < v.wsize
  {
    v.own[i] % v.wsize == i && v.own[i] < top && v.own[i] + 2 < v.end
  }

  ghost predicate PrevOk(v: View, i: nat)
    requires Shape(v) && i < v.wsize
  {
    v.own[i] >= 0 && v.own[i] + 2 < v.end ==> Link(v, v.prev[i], v.own[i], Key(v, v.own[i]))
  }

  /** Every chain holds inserted strings, all below top, with one hash, the later first. */
  ghost predicate Chains(v: View, top: int) {
    Shape(v) && (forall h: nat :: h < |v.head| ==> HeadOk(v, h)) &&
    (forall i: nat :: i < v.wsize ==> OwnOk(v, i, top)) &&
    forall i: nat :: i < v.wsize ==> PrevOk(v, i)
  }

  /* ---------- arithmetic of the cells of prev ---------- */

  lemma Remainder(x: int, w: nat)
    requires w > 0
    ensures 0 <= x % w < w && (x - w) % w == x % w
  {
    var q := x / w;
    assert x - w == w * (q - 1) + x % w by { Bits.MulSplit(q, 1, w); }
    Bits.QuotientIs(x - w, w, q - 1, x % w);
  }

  lemma Negate(d: int, w: int)
    ensures w * -d == -(w * d)
  {
  }

  /** Less than a window apart and in the same cell: the same string. */
  lemma SameCell(x: int, y: int, w: nat)
    requires w > 0 && x % w == y % w && y <= x < y + w
    ensures x == y
  {
    var d := x / w - y / w;
    assert w * d == x - y by { Bits.MulSplit(x / w, y / w, w); }
    if d > 0 { Bits.MulAtLeast(d, w); } else if d < 0 { Bits.MulAtLeast(-d, w); Negate(d, w); }
  }

  /* ---------- following a chain ---------- */

  /** While strings are less than a window old, their links are their own. */
  lemma Follow(v: View, p: int, top: int)
    requires Chains(v, top) && OnChain(v, p) && top <= p + v.wsize
    ensures 0 <= p % v.wsize < v.wsize && Link(v, v.prev[p % v.wsize], p, Key(v, p))
  {
    hide Key;
    hide Link;
    Remainder(p, v.wsize);
    var i := p % v.wsize;
    assert OwnOk(v, i, top) && PrevOk(v, i);
    SameCell(v.own[i], p, v.wsize);
  }

  /** The head of a chain. */
  lemma Start(v: View, h: nat, top: int)
    requires Chains(v, top) && h < |v.head|
    ensures Link(v, v.head[h], v.end, h)
  {
    assert HeadOk(v, h);
  }

  /* ---------- INSERT_STRING ---------- */

  ghost function Inserted(v: View, str: nat): View
    requires Shape(v) && str + 2 < v.end
  {
    var i, h := str % v.wsize, Key(v, str);
    v.(head := v.head[h := str], prev := v.prev[i := v.head[h]], own := v.own[i := str])
  }

  lemma InsertedShape(v: View, str: nat)
    requires Shape(v) && str + 2 < v.end
    ensures Shape(Inserted(v, str))
    ensures forall p :: 0 <= p && p + 2 < |v.w| ==> Key(Inserted(v, str), p) == Key(v, p)
  {
  }

  lemma StillOnChain(v: View, str: nat, p: int, top: int)
    requires Chains(v, top) && top <= str && str + 2 < v.end && OnChain(v, p)
    ensures Shape(Inserted(v, str)) && OnChain(Inserted(v, str), p)
  {
    hide Key;
    InsertedShape(v, str);
    Remainder(p, v.wsize);
    Remainder(str, v.wsize);
    assert OwnOk(v, str % v.wsize, top);
  }

  lemma StillLink(v: View, str: nat, q: int, p: int, h: nat, top: int)
    requires Chains(v, top) && top <= str && str + 2 < v.end && Link(v, q, p, h)
    ensures Shape(Inserted(v, str)) && Link(Inserted(v, str), q, p, h)
  {
    hide Key;
    hide Chains;
    hide Inserted;
    ChainsShape(v, top);
    InsertedShape(v, str);
    if q != 0 { StillOnChain(v, str, q, top); }
  }

  lemma ChainsShape(v: View, top: int)
    requires Chains(v, top)
    ensures Shape(v)
  {
  }

  /** What was inserted earlier is smaller. */
  lemma LinkBelow(v: View, q: int, p: int, h: nat, top: int)
    requires Chains(v, top) && Link(v, q, p, h) && q != 0
    ensures q < top
  {
    Remainder(q, v.wsize);
    assert OwnOk(v, q % v.wsize, top);
  }

  lemma InsertedIs(v: View, str: nat)
    requires Shape(v) && str + 2 < v.end
    ensures var i, h, v' := str % v.wsize, Key(v, str), Inserted(v, str);
      v' == View(v.m, v.s, v.wsize, v.w, v.end, v.head[h := str], v.prev[i := v.head[h]], v.own[i := str])
  {
  }

  /** The new string heads its chain and links to what headed it before. */
  lemma Insert(v: View, str: nat, top: int)
    requires Chains(v, top) && top <= str && str + 2 < v.end
    ensures Chains(Inserted(v, str), str + 1)
    ensures Link(Inserted(v, str), v.head[Key(v, str)], str, Key(v, str))
  {
    hide *;
    ChainsShape(v, top);
    InsertedShape(v, str);
    InsertedIs(v, str);
    ShapeParts(v);
    var v', i, h, top' := Inserted(v, str), str % v.wsize, Key(v, str), str + 1;
    Remainder(str, v.wsize);
    Start(v, h, top);
    LinkTighter(v, h, str, top);
    StillLink(v, str, v.head[h], str, h, top);
    forall g: nat | g < |v'.head| ensures HeadOk(v', g) {
      InsertHead(v, str, top, g);
    }
    assert v'.wsize == v.wsize;
    forall j: nat | j < v'.wsize ensures OwnOk(v', j, top') && PrevOk(v', j) {
      InsertCell(v, str, top, j);
    }
    ChainsIntro(v', top');
  }

  lemma ShapeParts(v: View)
    requires Shape(v)
    ensures v.wsize >= 512 && |v.prev| == v.wsize && |v.own| == v.wsize && |v.w| == 2 * v.wsize && v.end <= |v.w|
  {
    hide AreBytes;
  }

  lemma ChainsIntro(v: View, top: int)
    requires Shape(v) && (forall h: nat :: h < |v.head| ==> HeadOk(v, h))
    requires forall j: nat :: j < v.wsize ==> OwnOk(v, j, top) && PrevOk(v, j)
    ensures Chains(v, top)
  {
    hide HeadOk;
    hide OwnOk;
    hide PrevOk;
  }

  lemma LinkTighter(v: View, h: nat, str: nat, top: int)
    requires Chains(v, top) && top <= str && h < |v.head| && Link(v, v.head[h], v.end, h)
    ensures Link(v, v.head[h], str, h)
  {
    if v.head[h] != 0 { LinkBelow(v, v.head[h], v.end, h, top); }
  }

  lemma InsertHead(v: View, str: nat, top: int, g: nat)
    requires Chains(v, top) && top <= str && str + 2 < v.end && g < |v.head|
    ensures Shape(Inserted(v, str)) && HeadOk(Inserted(v, str), g)
  {
    hide Chains;
    ChainsShape(v, top);
    InsertedShape(v, str);
    Remainder(str, v.wsize);
    if g == Key(v, str) {
      assert Key(Inserted(v, str), str) == g;
    } else {
      Start(v, g, top);
      StillLink(v, str, v.head[g], v.end, g, top);
    }
  }

  lemma InsertCell(v: View, str: nat, top: int, j: nat)
    requires Chains(v, top) && top <= str && str + 2 < v.end && j < v.wsize
    ensures Shape(Inserted(v, str)) && OwnOk(Inserted(v, str), j, str + 1) && PrevOk(Inserted(v, str), j)
  {
    hide Link;
    hide Key;
    InsertedShape(v, str);
    Remainder(str, v.wsize);
    var h := Key(v, str);
    assert OwnOk(v, j, top) && PrevOk(v, j);
    if j == str % v.wsize {
      Start(v, h, top);
      LinkTighter(v, h, str, top);
      StillLink(v, str, v.head[h], str, h, top);
    } else if v.own[j] >= 0 {
      StillLink(v, str, v.prev[j], v.own[j], Key(v, v.own[j]), top);
    }
  }

  /* ---------- the window changes ---------- */

  /** More data after the end. */
  lemma Grow(v: View, top: int, w: seq<int>, end: nat)
    requires Chains(v, top) && |w| == |v.w| && v.end <= end <= |w| && w[..v.end] == v.w[..v.end] && AreBytes(w)
    ensures Chains(v.(w := w, end := end), top)
  {
    hide *;
    ChainsShape(v, top);
    var v' := v.(w := w, end := end);
    GrowShape(v, w, end);
    forall h: nat | h < |v'.head| ensures HeadOk(v', h) {
      Start(v, h, top);
      GrowLink(v, w, end, v.head[h], v.end, v'.end, h);
      HeadIntro(v', h);
    }
    ShapeParts(v);
    forall j: nat | j < v.wsize ensures OwnOk(v', j, top) && PrevOk(v', j) {
      GrowCell(v, top, w, end, j);
    }
    ChainsIntro(v', top);
  }

  lemma HeadIntro(v: View, h: nat)
    requires Shape(v) && h < |v.head| && Link(v, v.head[h], v.end, h)
    ensures HeadOk(v, h)
  {
  }

  lemma GrowShape(v: View, w: seq<int>, end: nat)
    requires Shape(v) && |w| == |v.w| && v.end <= end <= |w| && w[..v.end] == v.w[..v.end] && AreBytes(w)
    ensures var v' := v.(w := w, end := end);
      Shape(v') && forall p {:trigger Key(v, p)} :: 0 <= p && p + 2 < v.end ==> Key(v', p) == Key(v, p)
  {
    hide KeyOf;
    var v' := v.(w := w, end := end);
    forall p | 0 <= p && p + 2 < v.end ensures Key(v', p) == Key(v, p) {
      assert w[..v.end][p] == w[p] && w[..v.end][p + 1] == w[p + 1] && w[..v.end][p + 2] == w[p + 2];
      assert v.w[..v.end][p] == v.w[p] && v.w[..v.end][p + 1] == v.w[p + 1] && v.w[..v.end][p + 2] == v.w[p + 2];
    }
  }

  lemma GrowLink(v: View, w: seq<int>, end: nat, q: int, p: int, p': int, h: nat)
    requires Shape(v) && |w| == |v.w| && v.end <= end <= |w| && w[..v.end] == v.w[..v.end] && AreBytes(w)
    requires Link(v, q, p, h) && p <= p'
    ensures var v' := v.(w := w, end := end); Shape(v') && Link(v', q, p', h)
  {
    hide Key;
    GrowShape(v, w, end);
  }

  lemma GrowCell(v: View, top: int, w: seq<int>, end: nat, j: nat)
    requires Chains(v, top) && |w| == |v.w| && v.end <= end <= |w| && w[..v.end] == v.w[..v.end] && AreBytes(w) &&
      j < v.wsize
    ensures var v' := v.(w := w, end := end); Shape(v') && OwnOk(v', j, top) && PrevOk(v', j)
  {
    hide Link;
    hide Key;
    GrowShape(v, w, end);
    assert OwnOk(v, j, top) && PrevOk(v, j);
    if v.own[j] >= 0 { GrowLink(v, w, end, v.prev[j], v.own[j], v.own[j], Key(v, v.own[j])); }
  }

  /** A position, after the window has moved up by its size. */
  function Lower(m: int, wsize: nat): int { if m >= wsize then m - wsize else 0 }

  ghost function Lowered(a: seq<int>, wsize: nat): seq<int> {
    seq(|a|, i requires 0 <= i < |a| => Lower(a[i], wsize))
  }

  ghost function Dropped(own: seq<int>, wsize: nat): seq<int> {
    seq(|own|, i requires 0 <= i < |own| => own[i] - wsize)
  }

  ghost function Slid(v: View): View
    requires Shape(v) && v.end >= v.wsize
  {
    v.(w := v.w[v.wsize..] + v.w[v.wsize..], end := v.end - v.wsize,
       head := Lowered(v.head, v.wsize), prev := Lowered(v.prev, v.wsize), own := Dropped(v.own, v.wsize))
  }

  lemma SlidShape(v: View)
    requires Shape(v) && v.end >= v.wsize
    ensures Shape(Slid(v))
    ensures forall p {:trigger Key(v, p)} :: v.wsize <= p && p + 2 < v.end ==> Key(Slid(v), p - v.wsize) == Key(v, p)
  {
    hide KeyOf;
    hide Proper;
    hide Size;
    var w' := Slid(v).w;
    forall i | 0 <= i < |w'| ensures 0 <= w'[i] < 256 {
      assert w'[i] == v.w[v.wsize + i % v.wsize] by { SlidByte(v, i); }
    }
    forall p | v.wsize <= p && p + 2 < v.end ensures Key(Slid(v), p - v.wsize) == Key(v, p) {
      assert w'[p - v.wsize] == v.w[p] && w'[p - v.wsize + 1] == v.w[p + 1] && w'[p - v.wsize + 2] == v.w[p + 2];
    }
  }

  lemma SlidByte(v: View, i: nat)
    requires Shape(v) && v.end >= v.wsize && i < 2 * v.wsize
    ensures 0 <= i % v.wsize < v.wsize && (v.w[v.wsize..] + v.w[v.wsize..])[i] == v.w[v.wsize + i % v.wsize]
  {
    hide Proper;
    hide Size;
    Bits.QuotientIs(i, v.wsize, if i < v.wsize then 0 else 1, if i < v.wsize then i else i - v.wsize);
  }

  lemma SlideLink(v: View, q: int, p: int, h: nat)
    requires Shape(v) && v.end >= v.wsize && Link(v, q, p, h)
    ensures Shape(Slid(v)) && Link(Slid(v), Lower(q, v.wsize), p - v.wsize, h)
  {
    hide Key;
    hide Shape;
    SlidShape(v);
    ShapeParts(v);
    if q > v.wsize {
      Remainder(q, v.wsize);
    }
  }

  lemma SlidIs(v: View)
    requires Shape(v) && v.end >= v.wsize
    ensures Shape(Slid(v))
    ensures Slid(v).end == v.end - v.wsize && Slid(v).wsize == v.wsize && |Slid(v).head| == |v.head|
    ensures forall h :: 0 <= h < |v.head| ==> Slid(v).head[h] == Lower(v.head[h], v.wsize)
    ensures forall i :: 0 <= i < v.wsize ==> Slid(v).prev[i] == Lower(v.prev[i], v.wsize)
    ensures forall i :: 0 <= i < v.wsize ==> Slid(v).own[i] == v.own[i] - v.wsize
  {
    SlidShape(v);
  }

  lemma SlideCell(v: View, top: int, j: nat)
    requires Chains(v, top) && v.end >= v.wsize && j < v.wsize
    ensures Shape(Slid(v)) && OwnOk(Slid(v), j, top - v.wsize) && PrevOk(Slid(v), j)
  {
    hide Link;
    hide Key;
    hide Shape;
    hide Slid;
    ChainsShape(v, top);
    ShapeParts(v);
    SlidShape(v);
    SlidIs(v);
    assert OwnOk(v, j, top) && PrevOk(v, j);
    Remainder(v.own[j], v.wsize);
    if v.own[j] >= v.wsize { SlideLink(v, v.prev[j], v.own[j], Key(v, v.own[j])); }
  }

  /** fill_window slides the window and both tables. */
  lemma Slide(v: View, top: int)
    requires Chains(v, top) && v.end >= v.wsize
    ensures Chains(Slid(v), top - v.wsize)
  {
    hide *;
    ChainsShape(v, top);
    SlidIs(v);
    var v', top' := Slid(v), top - v.wsize;
    forall h: nat | h < |v'.head| ensures HeadOk(v', h) {
      Start(v, h, top);
      SlideLink(v, v.head[h], v.end, h);
      HeadIntro(v', h);
    }
    forall j: nat | j < v'.wsize ensures OwnOk(v', j, top') && PrevOk(v', j) {
      SlideCell(v, top, j);
    }
    ChainsIntro(v', top');
  }

  /** CLEAR_HASH */
  lemma Clear(v: View, top: int, head: seq<int>)
    requires Chains(v, top) && |head| == |v.head| && forall h :: 0 <= h < |head| ==> head[h] == 0
    ensures Chains(v.(head := head), top)
  {
    hide Key;
    var v' := v.(head := head);
    forall p | 0 <= p && p + 2 < |v.w| ensures Key(v', p) == Key(v, p) {
      KeySame(v, v', p);
    }
    forall j: nat | j < v.wsize ensures PrevOk(v', j) {
      assert OwnOk(v, j, top) && PrevOk(v, j);
    }
    assert forall j: nat :: j < v.wsize ==> OwnOk(v, j, top) ==> OwnOk(v', j, top);
  }

  lemma KeySame(v: View, v': View, p: int)
    requires Shape(v) && Shape(v') && v.w == v'.w && v.m == v'.m && v.s == v'.s && 0 <= p && p + 2 < |v.w|
    ensures Key(v', p) == Key(v, p)
  {
  }

  /** Nothing in the window, nothing on any chain. */
  ghost predicate Blank(v: View) {
    Shape(v) && v.end == 0 && (forall h :: 0 <= h < |v.head| ==> v.head[h] == 0) &&
    forall i :: 0 <= i < v.wsize ==> v.own[i] == i - v.wsize - v.wsize
  }

  lemma BlankChains(v: View)
    requires Blank(v)
    ensures Chains(v, 0)
  {
    hide Key;
    hide Proper;
    hide Size;
    forall j: nat | j < v.wsize ensures OwnOk(v, j, 0) {
      Remainder(j, v.wsize);
      Remainder(j - v.wsize, v.wsize);
      Bits.QuotientIs(j, v.wsize, 0, j);
    }
  }

  /** Nothing newer has been inserted. */
  lemma Later(v: View, top: int, top': int)
    requires Chains(v, top) && top <= top'
    ensures Chains(v, top')
  {
    hide Link;
    hide Key;
    forall j: nat | j < v.wsize ensures OwnOk(v, j, top') {
      assert OwnOk(v, j, top);
    }
  }

  /** No string was inserted without its three bytes. */
  lemma Earlier(v: View, top: int)
    requires Chains(v, top)
    ensures Chains(v, v.end - 2)
  {
    hide Link;
    hide Key;
    var t := v.end - 2;
    forall j: nat | j < v.wsize ensures OwnOk(v, j, t) {
      assert OwnOk(v, j, top);
    }
  }
}
