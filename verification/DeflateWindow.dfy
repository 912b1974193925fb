/** What deflate keeps about its window: it holds the latest input, the rolling hash is that of the
    next string, and matches are repetitions in the input. */
module DeflateWindow {
  import opened ByteSeq
  import opened DeflateHash
  import opened DeflateChains
  import opened DeflateMatch

  /* ---------- the rolling hash ---------- */

  /** One more byte makes h the hash of the string at p. */
  ghost predicate Ready(m: bv32, s: bv32, h: bv32, w: seq<int>, p: nat) {
    Proper(m, s) && AreBytes(w) && p + 1 < |w| &&
    forall c: bv32 :: Update(m, s, h, c) == Update(m, s, Two(m, s, 0, Word(w[p]), Word(w[p + 1])), c)
  }

  lemma ReadyAt(m: bv32, s: bv32, h: bv32, w: seq<int>, p: nat, c: bv32)
    requires Ready(m, s, h, w, p)
    ensures 0 <= w[p] < 256 && 0 <= w[p + 1] < 256
    ensures Update(m, s, h, c) == Update(m, s, Two(m, s, 0, Word(w[p]), Word(w[p + 1])), c)
  {
    hide Update;
    hide Two;
    hide Word;
  }

  lemma ReadyNext(m: bv32, s: bv32, h: bv32, w: seq<int>, p: nat)
    requires Ready(m, s, h, w, p) && p + 2 < |w| && 0 <= w[p] < 256 && 0 <= w[p + 1] < 256 && 0 <= w[p + 2] < 256
    ensures Ready(m, s, Update(m, s, h, Word(w[p + 2])), w, p + 1)
    ensures Index(Update(m, s, h, Word(w[p + 2]))) == KeyOf(m, s, w[p], w[p + 1], w[p + 2])
  {
    hide Update;
    hide Proper;
    hide Word;
    hide Index;
    var a, b, c := Word(w[p]), Word(w[p + 1]), Word(w[p + 2]);
    ReadyAt(m, s, h, w, p, c);
    var h' := Update(m, s, h, c);
    forall d: bv32 ensures Update(m, s, h', d) == Update(m, s, Two(m, s, 0, b, c), d) {
      Forgets(m, s, Update(m, s, 0, a), 0, b, c, d);
    }
  }

  lemma FromZero(m: bv32, s: bv32, a: bv32)
    requires Proper(m, s) && a <= 0xff
    ensures Update(m, s, 0, a) == a
  {
    hide And;
    ShlIs(0, s);
    MaskWide(m, s);
    Kept(a, m);
  }

  /** The hash started afresh from two bytes. */
  lemma ReadyStart(m: bv32, s: bv32, w: seq<int>, p: nat)
    requires Proper(m, s) && AreBytes(w) && p + 1 < |w|
    ensures 0 <= w[p] < 256 && 0 <= w[p + 1] < 256
    ensures Ready(m, s, Update(m, s, Word(w[p]), Word(w[p + 1])), w, p)
  {
    hide Update;
    hide Word;
    hide Proper;
    WordSmall(w[p]);
    FromZero(m, s, Word(w[p]));
  }

  lemma ReadySame(m: bv32, s: bv32, h: bv32, w: seq<int>, p: nat, w': seq<int>, p': nat)
    requires Ready(m, s, h, w, p) && AreBytes(w') && p' + 1 < |w'| && w'[p'] == w[p] && w'[p' + 1] == w[p + 1]
    ensures Ready(m, s, h, w', p')
  {
    hide Update;
    hide Two;
    hide Word;
  }

  /* ---------- the window and the input ---------- */

  /** The first end bytes of the window are the latest of the input. */
  ghost predicate Held(w: seq<int>, data: seq<int>, end: nat) {
    end <= |w| && end <= |data| && w[..end] == data[|data| - end..]
  }

  lemma HeldAt(w: seq<int>, data: seq<int>, end: nat, p: nat)
    requires Held(w, data, end) && p < end
    ensures w[p] == data[|data| - end + p]
  {
    assert w[..end][p] == w[p];
  }

  lemma HeldPart(w: seq<int>, data: seq<int>, end: nat, p: nat, q: nat)
    requires Held(w, data, end) && p <= q <= end
    ensures w[p..q] == data[|data| - end + p..|data| - end + q]
  {
    assert w[p..q] == w[..end][p..q];
    assert data[|data| - end..][p..q] == data[|data| - end + p..|data| - end + q];
  }

  lemma HeldMore(w: seq<int>, data: seq<int>, end: nat, w': seq<int>, more: seq<int>)
    requires Held(w, data, end) && |w'| == |w| && end + |more| <= |w| && w'[..end] == w[..end] &&
      w'[end..end + |more|] == more
    ensures Held(w', data + more, end + |more|)
  {
    assert w'[..end + |more|] == w'[..end] + w'[end..end + |more|];
  }

  lemma HeldSlid(w: seq<int>, data: seq<int>, end: nat, n: nat)
    requires Held(w, data, end) && |w| == 2 * n && n <= end
    ensures Held(w[n..] + w[n..], data, end - n)
  {
    assert (w[n..] + w[n..])[..end - n] == w[..end][n..];
    assert data[|data| - end..][n..] == data[|data| - (end - n)..];
  }

  lemma HeldSame(w: seq<int>, data: seq<int>, end: nat, w': seq<int>)
    requires Held(w, data, end) && |w'| == |w| && w'[..end] == w[..end]
    ensures Held(w', data, end)
  {
  }

  lemma HeldNone(w: seq<int>, data: seq<int>)
    ensures Held(w, data, 0)
  {
  }

  /* ---------- matches ---------- */

  /** len bytes at at are those at from, at most reach bytes back. */
  ghost predicate Repeats(data: seq<int>, from: int, at: int, len: int, reach: int) {
    0 <= from < at && at - from <= reach && 3 <= len <= 258 && at + len <= |data| &&
    data[from..from + len] == data[at..at + len]
  }

  lemma RepeatsMore(data: seq<int>, more: seq<int>, from: int, at: int, len: int, reach: int)
    requires Repeats(data, from, at, len, reach)
    ensures Repeats(data + more, from, at, len, reach)
  {
    assert (data + more)[from..from + len] == data[from..from + len];
    assert (data + more)[at..at + len] == data[at..at + len];
  }

  /** A match in the window is one in the input. */
  lemma FoundRepeats(v: View, data: seq<int>, at: int, p: int, len: nat)
    requires Shape(v) && Held(v.w, data, v.end) && Found(v, at, p, len) && p + len <= v.end && len <= 258
    ensures Repeats(data, |data| - v.end + at, |data| - v.end + p, len, v.wsize - MIN_LOOKAHEAD)
  {
    hide Shape;
    HeldPart(v.w, data, v.end, at, at + len);
    HeldPart(v.w, data, v.end, p, p + len);
  }
}
