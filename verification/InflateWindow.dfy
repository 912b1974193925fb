/** inflate.c and inffast.c after the codes have been read: literals and matches are turned into
    output, over any number of calls with output buffers of any size, with the help of a circular
    window that remembers what earlier calls have put out. */
module InflateWindow {
  import opened Bits

  /** A literal byte, or a copy of len bytes from dist bytes back. */
  datatype Token = Literal(b: int) | Copy(len: int, dist: int)

  /* ---------- what tokens mean (section 3.2.3 of RFC 1951) ---------- */

  /** len times: append the byte that is dist bytes back. */
  ghost function CopyBack(h: seq<int>, dist: nat, len: nat): (h': seq<int>)
    requires 1 <= dist <= |h|
    ensures |h'| == |h| + len && h <= h'
    decreases len
  {
    if len == 0 then h else CopyBack(h + [h[|h| - dist]], dist, len - 1)
  }

  ghost predicate Legal1(h: seq<int>, t: Token, wsize: nat) {
    t.Copy? ==> 1 <= t.dist <= |h| && t.dist <= wsize && 1 <= t.len
  }

  ghost function Play1(h: seq<int>, t: Token): (h': seq<int>)
    requires t.Copy? ==> 1 <= t.dist <= |h| && 1 <= t.len
    ensures |h'| > |h|
  {
    match t
    case Literal(b) => h + [b]
    case Copy(len, dist) => CopyBack(h, dist, len)
  }

  /** No distance exceeds the output so far or the window. */
  ghost predicate Legal(h: seq<int>, ts: seq<Token>, wsize: nat)
    decreases |ts|
  {
    ts != [] ==> Legal1(h, ts[0], wsize) && Legal(Play1(h, ts[0]), ts[1..], wsize)
  }

  ghost function Play(h: seq<int>, ts: seq<Token>, wsize: nat): (h': seq<int>)
    requires Legal(h, ts, wsize)
    decreases |ts|
  {
    if ts == [] then h else Play(Play1(h, ts[0]), ts[1..], wsize)
  }

  lemma CopyBackNone(h: seq<int>, dist: nat)
    requires 1 <= dist <= |h|
    ensures CopyBack(h, dist, 0) == h
  {
  }

  /** One byte more, at the end. */
  lemma {:induction false} CopyBackMore(h: seq<int>, dist: nat, n: nat)
    requires 1 <= dist <= |h|
    ensures var g := CopyBack(h, dist, n); CopyBack(h, dist, n + 1) == g + [g[|g| - dist]]
    decreases n
  {
    if n > 0 {
      CopyBackMore(h + [h[|h| - dist]], dist, n - 1);
    }
  }

  lemma {:induction false} CopyBackSplit(h: seq<int>, dist: nat, n: nat, m: nat)
    requires 1 <= dist <= |h|
    ensures CopyBack(CopyBack(h, dist, n), dist, m) == CopyBack(h, dist, n + m)
    decreases n
  {
    if n > 0 {
      CopyBackSplit(h + [h[|h| - dist]], dist, n - 1, m);
    }
  }

  /** Each byte appended is the one dist before it. */
  lemma {:induction false} CopyBackAt(h: seq<int>, dist: nat, len: nat, i: nat)
    requires 1 <= dist <= |h| && |h| <= i < |h| + len
    ensures CopyBack(h, dist, len)[i] == CopyBack(h, dist, len)[i - dist]
    decreases len
  {
    CopyBackMore(h, dist, len - 1);
    if i < |h| + len - 1 { CopyBackAt(h, dist, len - 1, i); }
  }

  /* ---------- the circular window ---------- */

  /** The window w holds the last bytes of hist, the latest just before wnext. */
  ghost predicate Held(w: seq<int>, wnext: nat, whave: nat, hist: seq<int>) {
    0 < |w| && wnext < |w| && whave == (if |hist| < |w| then |hist| else |w|) && (whave < |w| ==> wnext == whave) &&
    (forall i :: 0 <= i < wnext ==> w[i] == hist[|hist| - wnext + i]) &&
    (whave == |w| ==> forall i :: wnext <= i < |w| ==> w[i] == hist[|hist| - wnext - |w| + i])
  }

  /** The window of a stream that has put out nothing yet. */
  lemma HeldStart(w: seq<int>)
    requires 0 < |w|
    ensures Held(w, 0, 0, [])
  {
  }

  /** The byte d back is in one of two places. */
  lemma HeldAt(w: seq<int>, wnext: nat, whave: nat, hist: seq<int>, d: nat)
    requires Held(w, wnext, whave, hist) && 1 <= d <= whave
    ensures d <= |hist| && (d <= wnext ==> w[wnext - d] == hist[|hist| - d])
    ensures d > wnext ==> wnext + |w| - d < |w| && w[wnext + |w| - d] == hist[|hist| - d]
  {
  }

  /** More than a window full. */
  lemma HeldFull(w: seq<int>, hist: seq<int>, o: seq<int>)
    requires 0 < |w| <= |o| && w == o[|o| - |w|..]
    ensures Held(w, 0, |w|, hist + o)
  {
  }

  /** What fits before the end of the window. */
  lemma HeldMore(w: seq<int>, wnext: nat, whave: nat, hist: seq<int>, o: seq<int>, w': seq<int>)
    requires Held(w, wnext, whave, hist) && |o| < |w| && wnext + |o| <= |w| && w' == w[..wnext] + o + w[wnext + |o|..]
    ensures Held(w', if wnext + |o| == |w| then 0 else wnext + |o|, if whave < |w| then whave + |o|
      else whave, hist + o)
  {
  }

  /** And what goes on at its start. */
  lemma HeldWrap(w: seq<int>, wnext: nat, whave: nat, hist: seq<int>, o: seq<int>, w': seq<int>)
    requires Held(w, wnext, whave, hist) && |o| < |w| && |w| < wnext + |o|
    requires var r := wnext + |o| - |w|; w' == o[|o| - r..] + w[r..wnext] + o[..|o| - r]
    ensures Held(w', wnext + |o| - |w|, |w|, hist + o)
  {
  }

  /** zmemcpy */
  method CopyBytes(dst: array<int>, at: nat, src: array<int>, from: nat, n: nat)
    requires dst != src && at + n <= dst.Length && from + n <= src.Length
    modifies dst
    ensures dst[..] == old(dst[..at]) + src[from..from + n] + old(dst[at + n..])
  {
    var i := 0;
    while i < n
      invariant 0 <= i <= n && (forall k :: 0 <= k < dst.Length && !(at <= k < at + i) ==> dst[k] == old(dst[k]))
      invariant forall k :: at <= k < at + i ==> dst[k] == src[from + k - at]
    {
      dst[at + i] := src[from + i];
      i := i + 1;
    }
  }

  /* ---------- copying a match ---------- */

  /** As long as the source has been there from the start, a copy just repeats it. */
  lemma {:induction false} CopyBackPlain(h: seq<int>, dist: nat, n: nat)
    requires 1 <= dist <= |h| && n <= dist
    ensures CopyBack(h, dist, n) == h + h[|h| - dist..|h| - dist + n]
    decreases n
  {
    if n == 0 {
      assert h + h[|h| - dist..|h| - dist] == h;
    } else {
      CopyBackPlain(h, dist, n - 1);
      CopyBackMore(h, dist, n - 1);
    }
  }

  lemma SameRun(s: seq<int>, t: seq<int>, a: nat, b: nat, n: nat)
    requires a + n <= |s| && b + n <= |t| && forall i :: a <= i < a + n ==> s[i] == t[b + i - a]
    ensures s[a..a + n] == t[b..b + n]
  {
  }

  lemma HeldRoom(w: seq<int>, wnext: nat, whave: nat, hist: seq<int>)
    requires Held(w, wnext, whave, hist)
    ensures wnext < |w| && whave <= |w|
  {
  }

  /** n bytes of the window from index at are the bytes of hist from c back. */
  lemma WindowRun(w: seq<int>, wnext: nat, whave: nat, hist: seq<int>, c: nat, n: nat, at: nat)
    requires Held(w, wnext, whave, hist) && 1 <= c <= whave && n <= c
    requires if c > wnext then at == wnext + |w| - c && n <= c - wnext else at == wnext - c
    ensures at + n <= |w| && c <= |hist| && w[at..at + n] == hist[|hist| - c..|hist| - c + n]
  {
    hide Held;
    HeldRoom(w, wnext, whave, hist);
    HeldAt(w, wnext, whave, hist, c);
    assert at + n <= |w|;
    forall i | at <= i < at + n ensures w[i] == hist[|hist| - c + i - at] {
      HeldAt(w, wnext, whave, hist, c - (i - at));
    }
    SameRun(w, hist, at, |hist| - c, n);
  }

  /** A piece of a match, out of the window. */
  lemma WindowPiece(hist: seq<int>, o: seq<int>, dist: nat, n: nat, piece: seq<int>)
    requires |o| < dist <= |hist| + |o| && n <= dist - |o| &&
      piece == hist[|hist| + |o| - dist..|hist| + |o| - dist + n]
    ensures CopyBack(hist + o, dist, n) == hist + (o + piece)
  {
    CopyBackPlain(hist + o, dist, n);
    assert (hist + o)[|hist + o| - dist..|hist + o| - dist + n] == piece;
    assert hist + o + piece == hist + (o + piece);
  }

  /** A piece, out of the output of this call: byte by byte, for source and target may overlap. */
  method CopyFromOut(out: array<int>, put: nat, dist: nat, n: nat, ghost hist: seq<int>)
    requires 1 <= dist <= put && put + n <= out.Length
    modifies out
    ensures hist + out[..put + n] == CopyBack(hist + old(out[..put]), dist, n) && out[..put] == old(out[..put])
  {
    ghost var o := out[..put];
    CopyBackNone(hist + o, dist);
    var i := 0;
    while i < n
      invariant 0 <= i <= n && hist + out[..put + i] == CopyBack(hist + o, dist, i) && out[..put] == o
    {
      ghost var before := out[..put + i];
      CopyBackMore(hist + o, dist, i);
      assert (hist + before)[|hist + before| - dist] == out[put + i - dist];
      out[put + i] := out[put + i - dist];
      assert out[..put + i + 1] == before + [out[put + i]];
      assert hist + before + [out[put + i]] == hist + (before + [out[put + i]]);
      i := i + 1;
    }
  }

  /** A piece, out of the window. */
  method CopyFromWindow(out: array<int>, put: nat, window: array<int>, from: nat, n: nat, ghost dist: nat,
      ghost hist: seq<int>)
    requires out != window && put < dist <= |hist| + put && n <= dist - put && put + n <= out.Length &&
      from + n <= window.Length
    requires window[from..from + n] == hist[|hist| + put - dist..|hist| + put - dist + n]
    modifies out
    ensures hist + out[..put + n] == CopyBack(hist + old(out[..put]), dist, n) && out[..put] == old(out[..put])
  {
    ghost var o := out[..put];
    CopyBytes(out, put, window, from, n);
    assert out[..put + n] == o + window[from..from + n];
    WindowPiece(hist, o, dist, n, window[from..from + n]);
  }

  /* ---------- the state ---------- */

  datatype Mode = LEN | LIT | MATCH | BAD

  class Inflate {
    // the window
    const wbits: nat
    var window: array<int>
    var wsize: nat
    var wnext: nat
    var whave: nat

    // where decoding stands
    var mode: Mode
    var length: int
    var offset: int
    var tokens: seq<Token>

    ghost var hist: seq<int>
    ghost const stream: seq<Token>
    ghost var given: nat

    ghost predicate Windowed()
      reads this, window
    {
      8 <= wbits <= 15 &&
      if wsize == 0 then hist == [] && whave == 0 && wnext == 0 && (window.Length == 0 || window.Length == Pow2(wbits))
      else wsize == Pow2(wbits) == window.Length && Held(window[..], wnext, whave, hist)
    }

    /** Tokens not yet turned into output. */
    ghost function Pending(): (ts: seq<Token>)
      reads this
    {
      (match mode
       case LIT => [Literal(length)]
       case MATCH => [Copy(length, offset)]
       case LEN => []
       case BAD => []) + tokens
    }

    /** With the output so far in h, all is as in the whole stream. */
    ghost predicate OnCourse(h: seq<int>)
      reads this
    {
      given <= |stream| && Course(h, Pending() + stream[given..], stream, Pow2(wbits)) && !mode.BAD?
    }

    /** As far as it has been played, the stream reaches back no further than its output. */
    ghost predicate Following(h: seq<int>)
      reads this
    {
      given <= |stream| && Follows(h, Pending() + stream[given..], stream)
    }

    /** The whole stream is legal for the window. */
    ghost predicate Good() {
      Legal([], stream, Pow2(wbits))
    }

    ghost predicate Sound()
      reads this
    {
      Coded(stream) && Coded(tokens) && given <= |stream| && (mode.MATCH? ==> length >= 1 && 1 <= offset <= FURTHEST)
    }

    /** With the output h so far. */
    ghost predicate Running(h: seq<int>)
      reads this, window
    {
      Windowed() && Sound() && (Good() ==> OnCourse(h)) && (!mode.BAD? ==> Following(h))
    }

    /** Between calls. */
    ghost predicate Valid()
      reads this, window
    {
      Running(hist)
    }

    /** inflateInit2: no output, no window. */
    constructor (wbits: nat, ghost stream: seq<Token>)
      requires 8 <= wbits <= 15 && Coded(stream)
      ensures Valid() && hist == [] && given == 0 && tokens == [] && mode.LEN? && this.stream == stream &&
        this.wbits == wbits && fresh(window)
    {
      this.wbits, this.stream := wbits, stream;
      window := new int[0];
      wsize, wnext, whave, mode, length, offset, tokens := 0, 0, 0, LEN, 0, 0, [];
      hist, given := [], 0;
      new;
      if Good() { CourseStart(stream, Pow2(wbits), Pending() + stream[0..]); }
      FollowsStart(stream, Pending() + stream[0..]);
    }

    lemma WindowedParts()
      requires Windowed() && wsize > 0
      ensures wsize == window.Length == Pow2(wbits) && Held(window[..], wnext, whave, hist)
    {
      hide Held;
      hide Pow2;
    }

    lemma NoWindow()
      requires Windowed() && wsize == 0
      ensures whave == 0 && wnext == 0 && hist == [] && (window.Length == 0 || window.Length == Pow2(wbits)) &&
        8 <= wbits <= 15
    {
      hide Held;
      hide Pow2;
    }

    lemma WindowedIntro()
      requires 8 <= wbits <= 15 && wsize == window.Length == Pow2(wbits) && wsize > 0 &&
        Held(window[..], wnext, whave, hist)
      ensures Windowed()
    {
      hide Held;
      hide Pow2;
    }

    lemma WindowedBits()
      requires Windowed()
      ensures 8 <= wbits <= 15 && Pow2(wbits) > 0
    {
    }

    /** The window is allocated, and put in use. */
    method EnsureWindow()
      requires Windowed()
      modifies this`window, this`wsize, this`wnext, this`whave
      ensures Windowed() && wsize > 0 && (window == old(window) || fresh(window))
    {
      hide *;
      WindowedBits();
      if wsize == 0 {
        NoWindow();
        if window.Length == 0 { window := new int[Pow2(wbits)]; }
        wsize, wnext, whave := Pow2(wbits), 0, 0;
        HeldStart(window[..]);
        WindowedIntro();
      }
    }

    /** updatewindow: the output of this call, out[..n], goes into the window. */
    method UpdateWindow(out: array<int>, n: nat)
      requires Windowed() && n <= out.Length && out != window
      modifies this`window, this`wsize, this`wnext, this`whave, this`hist, window
      ensures Windowed() && hist == old(hist) + out[..n] && wsize > 0 && (window == old(window) || fresh(window))
    {
      hide *;
      ghost var o := out[..n];
      EnsureWindow();
      WindowedParts();
      WindowedBits();
      HeldSizes(window[..], wnext, whave, hist);
      var copy := n;
      if copy >= wsize {
        ghost var w := window[..];
        CopyBytes(window, 0, out, n - wsize, wsize);
        SpliceAll(w, o, out[n - wsize..n - wsize + wsize], window[..]);
        HeldFull(window[..], hist, o);
        wnext, whave := 0, wsize;
      } else {
        var dist := wsize - wnext;
        if dist > copy { dist := copy; }
        if copy == dist {
          StoreMore(out, n);
        } else {
          StoreWrap(out, n);
        }
      }
      hist := hist + o;
      WindowedIntro();
    }

    /** All of it fits before the end of the window. */
    method StoreMore(out: array<int>, n: nat)
      requires Windowed() && wsize > 0 && n <= out.Length && out != window && n < wsize && wnext + n <= wsize
      modifies this`wnext, this`whave, window
      ensures wsize == window.Length == Pow2(wbits) && Held(window[..], wnext, whave, hist + out[..n])
    {
      hide *;
      WindowedParts();
      ghost var w, o := window[..], out[..n];
      HeldSizes(w, wnext, whave, hist);
      CopyBytes(window, wnext, out, 0, n);
      SpliceMore(w, wnext, o, out[0..0 + n], window[..]);
      HeldMore(w, wnext, whave, hist, o, window[..]);
      wnext := wnext + n;
      if wnext == wsize { wnext := 0; }
      if whave < wsize { whave := whave + n; }
    }

    /** The rest goes on at its start. */
    method StoreWrap(out: array<int>, n: nat)
      requires Windowed() && wsize > 0 && n <= out.Length && out != window && n < wsize < wnext + n
      modifies this`wnext, this`whave, window
      ensures wsize == window.Length == Pow2(wbits) && Held(window[..], wnext, whave, hist + out[..n])
    {
      hide *;
      WindowedParts();
      ghost var w, o := window[..], out[..n];
      HeldSizes(w, wnext, whave, hist);
      var dist := wsize - wnext;
      CopyBytes(window, wnext, out, 0, dist);
      ghost var w1 := window[..];
      var copy := n - dist;
      CopyBytes(window, 0, out, dist, copy);
      SpliceWrap(w, wnext, o, out[0..0 + dist], w1, out[dist..dist + copy], window[..]);
      HeldWrap(w, wnext, whave, hist, o, window[..]);
      wnext, whave := copy, wsize;
    }

    /** The bytes the window can give. */
    lemma WindowReach(c: nat)
      requires Windowed() && 1 <= c
      ensures c <= whave ==> wsize > 0 && wsize == window.Length && Held(window[..], wnext, whave, hist)
      ensures whave == (if |hist| < Pow2(wbits) then |hist| else Pow2(wbits)) ||
        (wsize == 0 && hist == [] && whave == 0)
    {
    }

    /** One round of the MATCH state: up to left bytes, out of the window up to its end or out of this
        call's output. A distance too far back is an error. */
    method MatchStep(out: array<int>, put: nat) returns (put': nat)
      requires Windowed() && mode.MATCH? && length >= 1 && offset >= 1 && put < out.Length && out != window
      modifies this`mode, this`length, out
      ensures out[..put] == old(out[..put]) && put <= put' <= out.Length
      ensures mode.BAD? <==> offset > put + whave
      ensures mode.BAD? ==> put' == put
      ensures !mode.BAD? ==> var n := put' - put;
        1 <= n <= old(length) && n <= out.Length - put && length == old(length) - n && (mode.MATCH? <==> length >= 1) &&
        (mode.LEN? <==> length == 0) &&
        1 <= offset <= |hist| + put && hist + out[..put'] == CopyBack(hist + old(out[..put]), offset, n)
    {
      hide *;
      var left := out.Length - put;
      var copy;
      if offset > put {
        if offset - put > whave {
          mode := BAD;
          return put;
        }
        copy := WindowStep(out, put);
      } else {
        copy := length;
        if copy > left { copy := left; }
        CopyFromOut(out, put, offset, copy, hist);
      }
      length := length - copy;
      put' := put + copy;
      if length == 0 { mode := LEN; }
    }

    /** A piece of the match out of the window, up to its end. */
    method WindowStep(out: array<int>, put: nat) returns (n: nat)
      requires Windowed() && length >= 1 && put < offset <= put + whave && put < out.Length && out != window
      modifies out
      ensures 1 <= n <= length && n <= out.Length - put && out[..put] == old(out[..put]) && 1 <= offset <= |hist| + put
      ensures hist + out[..put + n] == CopyBack(hist + old(out[..put]), offset, n)
    {
      hide *;
      var copy: int := offset - put;
      var left := out.Length - put;
      WindowReach(copy);
      ghost var c: nat := copy;
      var from;
      HeldSizes(window[..], wnext, whave, hist);
      if copy > wnext {
        copy := copy - wnext;
        from := wsize - copy;
      } else {
        from := wnext - copy;
      }
      if copy > length { copy := length; }
      if copy > left { copy := left; }
      n := copy;
      var put' := FromWindow(out, put, from, n, offset, c);
    }

    /** A whole match in inflate_fast: some out of the end of the window, some out of its start, the
        rest out of the output. */
    method FastMatch(out: array<int>, put: nat, len0: nat, dist: nat) returns (put': nat, ok: bool)
      requires Windowed() && len0 >= 3 && dist >= 1 && put + len0 <= out.Length && out != window
      modifies out
      ensures out[..put] == old(out[..put])
      ensures ok <==> dist <= put + whave
      ensures ok ==>
        put' == put + len0 && 1 <= dist <= |hist| + put &&
        hist + out[..put'] == CopyBack(hist + old(out[..put]), dist, len0)
      ensures !ok ==> put' == put
    {
      hide *;
      put', ok := put, true;
      ghost var o := out[..put];
      if dist > put {
        var op := dist - put;
        WindowReach(op);
        if op > whave { return put, false; }
        HeldSizes(window[..], wnext, whave, hist);
        CopiedNone(hist, o, dist);
        put' := WindowPart(out, put, len0, dist, op);
        if put' < put + len0 {
          put' := OutputPart(out, put', put + len0 - put', dist, put, put' - put, o);
        }
        CopiedParts(hist, o, out[..put'], dist, put' - put);
      } else {
        CopyFromOut(out, put', dist, len0, hist);
        put' := put' + len0;
      }
    }

    /** The part of the match that lies in the window. */
    method WindowPart(out: array<int>, put: nat, len0: nat, dist: nat, op0: nat) returns (put': nat)
      requires Windowed() && 1 <= op0 <= whave && dist == put + op0 && put + len0 <= out.Length && out != window &&
        wsize == window.Length
      requires wnext < wsize && (whave < wsize ==> wnext == whave) && whave <= wsize && dist <= |hist| + put
      modifies out
      ensures put' == put + (if op0 < len0 then op0 else len0) && out[..put] == old(out[..put])
      ensures Copied(hist, old(out[..put]), out[..put'], dist, put' - put)
    {
      hide *;
      ghost var o := out[..put];
      var len, op := len0, op0;
      if wnext == 0 {
        var n := if op < len then op else len;
        put' := FromWindow(out, put, wsize - op, n, dist, op);
        CopiedFirst(hist, o, out[..put'], dist, n);
      } else if wnext >= op {
        var n := if op < len then op else len;
        put' := FromWindow(out, put, wnext - op, n, dist, op);
        CopiedFirst(hist, o, out[..put'], dist, n);
      } else {
        var from := wsize + wnext - op;
        op := op - wnext;
        var n := if op < len then op else len;
        put' := FromWindow(out, put, from, n, dist, op0);
        CopiedFirst(hist, o, out[..put'], dist, n);
        len := len - n;
        if len > 0 {
          ghost var o1 := out[..put'];
          ghost var p := put';
          op := wnext;
          var m := if op < len then op else len;
          put' := FromWindow(out, put', 0, m, dist, op);
          PrefixKept(out[..p], o1, put);
          assert out[..p][..put] == out[..put] && o1[..put] == o;
          CopiedMore(hist, o, o1, out[..put'], dist, n, m);
        }
      }
    }

    /** And the part that lies in this call's output. */
    method OutputPart(out: array<int>, put: nat, len: nat, dist: nat, ghost put0: nat, ghost done: nat,
        ghost o: seq<int>) returns (put': nat)
      requires 1 <= dist <= put && put + len <= out.Length && put0 <= put && out[..put0] == o &&
        Copied(hist, o, out[..put], dist, done)
      modifies out
      ensures put' == put + len && out[..put0] == o && Copied(hist, o, out[..put'], dist, done + len)
    {
      hide *;
      ghost var o1 := out[..put];
      assert o1[..put0] == o;
      CopyFromOut(out, put, dist, len, hist);
      put' := put + len;
      assert out[..put][..put0] == out[..put0];
      CopiedMore(hist, o, o1, out[..put'], dist, done, len);
    }

    /* ---------- steps of the state machine ---------- */

    lemma RunningParts(h: seq<int>)
      requires Running(h)
      ensures Windowed() && Sound() && (Good() ==> OnCourse(h)) && (!mode.BAD? ==> Following(h))
    {
      hide Windowed;
      hide Sound;
      hide Good;
      hide OnCourse;
      hide Following;
    }

    lemma RunningIntro(h: seq<int>)
      requires Windowed() && Sound() && (Good() ==> OnCourse(h)) && (!mode.BAD? ==> Following(h))
      ensures Running(h)
    {
      hide Windowed;
      hide Sound;
      hide Good;
      hide OnCourse;
      hide Following;
    }

    lemma SoundParts()
      requires Sound()
      ensures Coded(stream) && Coded(tokens) && given <= |stream| &&
        (mode.MATCH? ==> length >= 1 && 1 <= offset <= FURTHEST)
      ensures tokens != [] ==>
        Coded(tokens[1..]) && (tokens[0].Copy? ==> 3 <= tokens[0].len <= 258 && 1 <= tokens[0].dist <= FURTHEST)
    {
    }

    lemma SoundIntro()
      requires Coded(stream) && Coded(tokens) && given <= |stream| &&
        (mode.MATCH? ==> length >= 1 && 1 <= offset <= FURTHEST)
      ensures Sound()
    {
      hide Coded;
    }

    lemma CourseParts(h: seq<int>)
      requires OnCourse(h)
      ensures given <= |stream| && Course(h, Pending() + stream[given..], stream, Pow2(wbits)) && !mode.BAD?
    {
      hide Course;
      hide Pow2;
    }

    lemma FollowingParts(h: seq<int>)
      requires Following(h)
      ensures given <= |stream| && Follows(h, Pending() + stream[given..], stream)
    {
      hide Follows;
    }

    lemma FollowingIntro(h: seq<int>)
      requires given <= |stream| && Follows(h, Pending() + stream[given..], stream)
      ensures Following(h)
    {
      hide Follows;
    }

    lemma CourseIntro(h: seq<int>)
      requires given <= |stream| && Course(h, Pending() + stream[given..], stream, Pow2(wbits)) && !mode.BAD?
      ensures OnCourse(h)
    {
      hide Course;
      hide Pow2;
    }

    lemma PendingIs()
      ensures mode.LIT? ==> Pending() == [Literal(length)] + tokens
      ensures mode.MATCH? ==> Pending() == [Copy(length, offset)] + tokens
      ensures mode.LEN? ==> Pending() == tokens
    {
    }

    /** The LEN state: the next literal or match is at hand. */
    method TakeToken(ghost h: seq<int>)
      requires Running(h) && mode.LEN? && tokens != []
      modifies this`mode, this`length, this`offset, this`tokens
      ensures Running(h) && |tokens| == |old(tokens)| - 1 && !mode.BAD?
    {
      hide *;
      RunningParts(h);
      SoundParts();
      PendingIs();
      ghost var ts := Pending();
      if Good() { CourseParts(h); }
      FollowingParts(h);
      match tokens[0] {
        case Literal(b) =>
          length := b;
          mode := LIT;
        case Copy(len, dist) =>
          length, offset := len, dist;
          mode := MATCH;
      }
      tokens := tokens[1..];
      PendingIs();
      assert Pending() == ts;
      if Good() { CourseIntro(h); }
      FollowingIntro(h);
      SoundIntro();
      WindowedSame();
      RunningIntro(h);
    }

    twostate lemma WindowedSame()
      requires old(Windowed()) && window == old(window) && wsize == old(wsize) && wnext == old(wnext) &&
        whave == old(whave) && hist == old(hist)
      requires old(window[..]) == window[..]
      ensures Windowed()
    {
      hide Held;
      hide Pow2;
    }

    /** The LIT state. */
    method PutLiteral(out: array<int>, put: nat)
      requires put < out.Length && Running(hist + out[..put]) && mode.LIT? && out != window
      modifies this`mode, out
      ensures Running(hist + out[..put + 1]) && mode.LEN? && out[..put] == old(out[..put])
    {
      hide *;
      ghost var h := hist + out[..put];
      ghost var w := window[..];
      RunningParts(h);
      SoundParts();
      PendingIs();
      if Good() { CourseParts(h); }
      FollowingParts(h);
      out[put] := length;
      mode := LEN;
      assert window[..] == w;
      OneMore(hist, out[..put], length, out[..put + 1]);
      PendingIs();
      Regroup([Literal(length)], tokens, stream[given..]);
      if Good() {
        CourseLiteral(h, length, tokens + stream[given..], stream, Pow2(wbits));
        CourseIntro(hist + out[..put + 1]);
      }
      FollowsLiteral(h, length, tokens + stream[given..], stream);
      FollowingIntro(hist + out[..put + 1]);
      SoundIntro();
      WindowedSame();
      RunningIntro(hist + out[..put + 1]);
    }

    /** The MATCH state. */
    method PutMatch(out: array<int>, put: nat) returns (put': nat)
      requires put < out.Length && Running(hist + out[..put]) && mode.MATCH? && out != window
      modifies this`mode, this`length, out
      ensures put <= put' <= out.Length && Running(hist + out[..put']) && (mode.BAD? || put' > put) &&
        out[..put] == old(out[..put])
      ensures Good() ==> !mode.BAD?
    {
      hide *;
      ghost var h := hist + out[..put];
      ghost var w := window[..];
      RunningParts(h);
      SoundParts();
      ghost var len, dist, rest := length, offset, tokens + stream[given..];
      PendingIs();
      FollowingParts(h);
      Regroup([Copy(length, offset)], tokens, stream[given..]);
      if Good() {
        CourseParts(h);
        CoursePart(h, len, dist, 1, rest, stream, Pow2(wbits));
        WindowReaches(h, out[..put], dist);
      }
      put' := MatchStep(out, put);
      assert window[..] == w;
      PendingIs();
      if length > 0 { Regroup([Copy(length, offset)], tokens, stream[given..]); }
      if Good() {
        CoursePart(h, len, dist, put' - put, rest, stream, Pow2(wbits));
        CourseIntro(hist + out[..put']);
      }
      if !mode.BAD? {
        FollowsPart(h, len, dist, put' - put, rest, stream);
        FollowingIntro(hist + out[..put']);
      }
      SoundIntro();
      WindowedSame();
      RunningIntro(hist + out[..put']);
    }

    /** A legal distance is within this call's output and the window. */
    lemma WindowReaches(h: seq<int>, o: seq<int>, dist: int)
      requires Windowed() && h == hist + o && 1 <= dist <= |h| && dist <= Pow2(wbits)
      ensures dist <= |o| + whave
    {
      hide Pow2;
    }

    /** inflate_fast: while there are tokens to be had without running out of input, and room for the
        longest match. */
    method InflateFast(out: array<int>, put: nat, enough: nat) returns (put': nat, left: nat)
      requires put <= out.Length && Running(hist + out[..put]) && mode.LEN? && out != window && tokens != [] &&
        out.Length - put >= 258 && enough > 0
      modifies this`mode, this`tokens, out
      ensures put <= put' <= out.Length && Running(hist + out[..put']) && (mode.LEN? || mode.BAD?) &&
        |tokens| < |old(tokens)| && left <= enough
      ensures out[..put] == old(out[..put])
      ensures Good() ==> !mode.BAD?
    {
      hide *;
      put', left := put, enough;
      ghost var o := out[..put];
      while true
        invariant put <= put' <= out.Length && Running(hist + out[..put']) && mode.LEN? && tokens != [] &&
          out.Length - put' >= 258 && 0 < left <= enough
        invariant |tokens| <= |old(tokens)| && out[..put] == o
        decreases |tokens|
      {
        ghost var done := out[..put'];
        ghost var p := put';
        put' := FastToken(out, put');
        left := left - 1;
        PrefixKept(out[..p], done, put);
        assert out[..p][..put] == out[..put] && done[..put] == o;
        if mode.BAD? || tokens == [] || out.Length - put' < 258 || left == 0 { break; }
      }
    }

    /** One token, whole. */
    method FastToken(out: array<int>, put: nat) returns (put': nat)
      requires put <= out.Length && Running(hist + out[..put]) && mode.LEN? && out != window && tokens != [] &&
        out.Length - put >= 258
      modifies this`mode, this`tokens, out
      ensures put <= put' <= out.Length && Running(hist + out[..put']) && (mode.LEN? || mode.BAD?) &&
        |tokens| == |old(tokens)| - 1
      ensures out[..put] == old(out[..put])
      ensures Good() ==> !mode.BAD?
    {
      hide *;
      ghost var h := hist + out[..put];
      ghost var w := window[..];
      var t := tokens[0];
      RunningParts(h);
      SoundParts();
      PendingIs();
      ghost var rest := tokens[1..] + stream[given..];
      assert tokens == [t] + tokens[1..];
      Regroup([t], tokens[1..], stream[given..]);
      if Good() { CourseParts(h); }
      FollowingParts(h);
      match t {
        case Literal(b) =>
          out[put] := b;
          put' := put + 1;
          OneMore(hist, out[..put], b, out[..put']);
          if Good() { CourseLiteral(h, b, rest, stream, Pow2(wbits)); }
          FollowsLiteral(h, b, rest, stream);
        case Copy(len, dist) =>
          if Good() {
            CoursePart(h, len, dist, len, rest, stream, Pow2(wbits));
            WindowReaches(h, out[..put], dist);
          }
          var ok;
          put', ok := FastMatch(out, put, len, dist);
          if !ok { mode := BAD; } else { FollowsPart(h, len, dist, len, rest, stream); }
      }
      tokens := tokens[1..];
      assert window[..] == w;
      PendingIs();
      if Good() { CourseIntro(hist + out[..put']); }
      if !mode.BAD? { FollowingIntro(hist + out[..put']); }
      SoundIntro();
      WindowedSame();
      RunningIntro(hist + out[..put']);
    }

    /** inflate, from the codes on: a call with room for some output, more of the stream, and for some
        of it enough input ahead to use the fast loop. However the output and the input are cut up
        into calls, a legal stream gives the same output; and any stream played to the end is legal but for the
        window's size. */
    method Call(room: nat, more: seq<Token>, enough: nat) returns (out: array<int>, n: nat)
      requires Valid() && given + |more| <= |stream| && more == stream[given..given + |more|]
      modifies this, window
      ensures Valid() && (window == old(window) || fresh(window)) && fresh(out) && out.Length == room && n <= room
      ensures hist == old(hist) + out[..n] && given == old(given) + |more|
      ensures n == room || (tokens == [] && mode.LEN?) || mode.BAD?
      ensures Good() ==> !mode.BAD? && hist <= Play([], stream, Pow2(wbits))
      ensures Good() && given == |stream| && tokens == [] && mode.LEN? ==> hist == Play([], stream, Pow2(wbits))
      ensures given == |stream| && tokens == [] && mode.LEN? ==>
        Legal([], stream, FURTHEST) && hist == Play([], stream, FURTHEST)
    {
      hide *;
      GiveMore(more);
      out := new int[room];
      n := 0;
      var left := enough;
      AppendNothing(hist, out[..0]);
      while true
        invariant n <= room && Running(hist + out[..n]) && given == old(given) + |more| && hist == old(hist) &&
          window == old(window)
        invariant Good() ==> !mode.BAD?
        decreases |tokens|, room - n, if mode.BAD? then 0 else 1
      {
        if mode.BAD? { break; }
        if mode.LEN? {
          if tokens == [] { break; }
          if left > 0 && room - n >= 258 {
            n, left := InflateFast(out, n, left);
          } else {
            TakeToken(hist + out[..n]);
          }
        } else {
          if n == room { break; }
          if mode.LIT? {
            PutLiteral(out, n);
            n := n + 1;
          } else {
            n := PutMatch(out, n);
          }
        }
      }
      ghost var h := hist + out[..n];
      Finish(out, n);
      ValidFacts();
    }

    /** More of the stream has been read. */
    method GiveMore(more: seq<Token>)
      requires Valid() && given + |more| <= |stream| && more == stream[given..given + |more|]
      modifies this`tokens, this`given
      ensures Valid() && given == old(given) + |more| && Running(hist) && (Good() ==> !mode.BAD?)
    {
      hide *;
      ValidRunning();
      RunningParts(hist);
      SoundParts();
      PendingIs();
      ghost var ts := Pending() + stream[given..];
      if Good() { CourseParts(hist); }
      if !mode.BAD? { FollowingParts(hist); }
      GiveParts(Pending(), stream, given, more);
      CodedMore(tokens, stream, given, more);
      ghost var pending := Pending();
      tokens := tokens + more;
      given := given + |more|;
      if !mode.BAD? {
        PendingMore(pending, old(tokens), more);
        FollowingIntro(hist);
      }
      if Good() { CourseIntro(hist); }
      SoundIntro();
      WindowedSame();
      RunningIntro(hist);
      ValidRunning2();
    }

    lemma PendingMore(pending: seq<Token>, tokens0: seq<Token>, more: seq<Token>)
      requires tokens == tokens0 + more && !mode.BAD?
      requires pending ==
        (match mode case LIT => [Literal(length)] case MATCH => [Copy(length, offset)] case LEN => [] case BAD => []) +
        tokens0
      ensures Pending() == pending + more
    {
      var a :=
        (match mode case LIT => [Literal(length)] case MATCH => [Copy(length, offset)] case LEN => [] case BAD => []);
      assert a + (tokens0 + more) == a + tokens0 + more;
    }

    lemma ValidRunning()
      requires Valid()
      ensures Running(hist)
    {
      hide Running;
    }

    lemma ValidRunning2()
      requires Running(hist)
      ensures Valid()
    {
      hide Running;
    }

    /** Before the call returns, its output goes into the window. */
    method Finish(out: array<int>, n: nat)
      requires n <= out.Length && out != window && Running(hist + out[..n])
      modifies this`window, this`wsize, this`wnext, this`whave, this`hist, window
      ensures Valid() && hist == old(hist) + out[..n] && (window == old(window) || fresh(window))
    {
      hide *;
      ghost var h := hist + out[..n];
      RunningParts(h);
      SoundParts();
      PendingIs();
      if Good() { CourseParts(h); }
      if !mode.BAD? { FollowingParts(h); }
      if wsize != 0 || n != 0 {
        UpdateWindow(out, n);
      } else {
        AppendNothing(hist, out[..n]);
      }
      PendingIs();
      if Good() { CourseIntro(h); }
      if !mode.BAD? { FollowingIntro(h); }
      SoundIntro();
      RunningIntro(h);
      ValidRunning2();
    }

    lemma ValidFacts()
      requires Valid()
      ensures Good() ==> !mode.BAD? && hist <= Play([], stream, Pow2(wbits))
      ensures Good() && given == |stream| && tokens == [] && mode.LEN? ==> hist == Play([], stream, Pow2(wbits))
      ensures given == |stream| && tokens == [] && mode.LEN? ==>
        Legal([], stream, FURTHEST) && hist == Play([], stream, FURTHEST)
    {
      hide *;
      ValidRunning();
      RunningParts(hist);
      if given == |stream| && tokens == [] && mode.LEN? {
        FollowingParts(hist);
        PendingIs();
        FollowsEnd(hist, Pending() + stream[given..], stream);
      }
      if Good() {
        CourseParts(hist);
        PendingIs();
        GoodIs();
        CoursePrefix(hist, Pending() + stream[given..], stream, Pow2(wbits));
        if given == |stream| && tokens == [] &&
          mode.LEN? { CourseEnd(hist, Pending() + stream[given..], stream, Pow2(wbits)); }
      }
    }

    lemma GoodIs()
      ensures Good() <==> Legal([], stream, Pow2(wbits))
    {
    }

    /** n bytes from index from of the window, which are c back from its end. */
    method FromWindow(out: array<int>, put: nat, from: nat, n: nat, ghost dist: nat, ghost c: nat) returns (put': nat)
      requires Windowed() && 1 <= c <= whave && dist == put + c && n <= c && put + n <= out.Length && out != window &&
        wsize == window.Length
      requires if c > wnext then from == wnext + wsize - c && n <= c - wnext else from == wnext - c
      modifies out
      ensures put' == put + n && out[..put] == old(out[..put]) && 1 <= dist <= |hist| + put
      ensures hist + out[..put'] == CopyBack(hist + old(out[..put]), dist, n)
    {
      hide *;
      WindowReach(c);
      WindowRun(window[..], wnext, whave, hist, c, n, from);
      assert window[..][from..from + n] == window[from..from + n];
      CopyFromWindow(out, put, window, from, n, dist, hist);
      put' := put + n;
    }
  }

  /** Of a match after output o, done bytes have been copied, which makes o'. */
  ghost predicate Copied(hist: seq<int>, o: seq<int>, o': seq<int>, dist: nat, done: nat) {
    1 <= dist <= |hist + o| && hist + o' == CopyBack(hist + o, dist, done)
  }

  lemma CopiedNone(hist: seq<int>, o: seq<int>, dist: nat)
    requires 1 <= dist <= |hist| + |o|
    ensures Copied(hist, o, o, dist, 0)
  {
  }

  lemma CopiedFirst(hist: seq<int>, o: seq<int>, o': seq<int>, dist: nat, n: nat)
    requires 1 <= dist <= |hist| + |o| && hist + o' == CopyBack(hist + o, dist, n)
    ensures Copied(hist, o, o', dist, n)
  {
  }

  lemma CopiedMore(hist: seq<int>, o: seq<int>, o1: seq<int>, o': seq<int>, dist: nat, n: nat, m: nat)
    requires Copied(hist, o, o1, dist, n) && 1 <= dist <= |hist| + |o1| && hist + o' == CopyBack(hist + o1, dist, m)
    ensures Copied(hist, o, o', dist, n + m)
  {
    CopyBackSplit(hist + o, dist, n, m);
  }

  lemma CopiedParts(hist: seq<int>, o: seq<int>, o': seq<int>, dist: nat, done: nat)
    requires Copied(hist, o, o', dist, done)
    ensures 1 <= dist <= |hist| + |o| && hist + o' == CopyBack(hist + o, dist, done)
  {
  }

  lemma PrefixKept(a: seq<int>, b: seq<int>, n: nat)
    requires a == b && n <= |a|
    ensures a[..n] == b[..n]
  {
  }

  lemma SpliceAll(w: seq<int>, o: seq<int>, o': seq<int>, w': seq<int>)
    requires |w| == |o'| <= |o| && o' == o[|o| - |o'|..] && w' == w[..0] + o' + w[0 + |o'|..]
    ensures w' == o[|o| - |w'|..] && |w'| == |w|
  {
    assert w[..0] == [] && w[|o'|..] == [];
  }

  lemma SpliceMore(w: seq<int>, at: nat, o: seq<int>, o': seq<int>, w': seq<int>)
    requires at + |o| <= |w| && o' == o && w' == w[..at] + o' + w[at + |o|..]
    ensures w' == w[..at] + o + w[at + |o|..]
  {
  }

  lemma SpliceWrap(w: seq<int>, at: nat, o: seq<int>, o1: seq<int>, w1: seq<int>, o2: seq<int>, w2: seq<int>)
    requires at <= |w| < at + |o| && |o| < |w| && o1 == o[..|w| - at] && o2 == o[|w| - at..]
    requires w1 == w[..at] + o1 + w[at + |o1|..] && w2 == w1[..0] + o2 + w1[|o2|..]
    ensures var r := at + |o| - |w|; w2 == o[|o| - r..] + w[r..at] + o[..|o| - r]
  {
    var r := at + |o| - |w|;
    assert |o2| == r && w[at + |o1|..] == [] && w1 == w[..at] + o1;
    assert w1[r..] == w[r..at] + o1;
    assert w1[..0] + o2 == o2;
    assert o2 + (w[r..at] + o1) == o2 + w[r..at] + o1;
  }

  lemma HeldSizes(w: seq<int>, wnext: nat, whave: nat, hist: seq<int>)
    requires Held(w, wnext, whave, hist)
    ensures 0 < |w| && wnext < |w| && whave == (if |hist| < |w| then |hist| else |w|) &&
      (whave < |w| ==> wnext == whave)
  {
  }

  lemma Regroup(a: seq<Token>, b: seq<Token>, c: seq<Token>)
    ensures a + b + c == a + (b + c)
  {
  }

  lemma OneMore(hist: seq<int>, o: seq<int>, b: int, o': seq<int>)
    requires |o'| == |o| + 1 && o'[..|o|] == o && o'[|o|] == b
    ensures hist + o' == hist + o + [b]
  {
  }

  lemma AppendNothing(a: seq<int>, b: seq<int>)
    requires b == []
    ensures a + b == a
  {
  }

  lemma GiveParts(p: seq<Token>, stream: seq<Token>, given: nat, more: seq<Token>)
    requires given + |more| <= |stream| && more == stream[given..given + |more|]
    ensures p + stream[given..] == p + more + stream[given + |more|..]
  {
  }

  lemma CodedMore(ts: seq<Token>, stream: seq<Token>, given: nat, more: seq<Token>)
    requires Coded(ts) && Coded(stream) && given + |more| <= |stream| && more == stream[given..given + |more|]
    ensures Coded(ts + more)
  {
    forall i {:trigger (ts + more)[i]} | 0 <= i < |ts + more|
      ensures (ts + more)[i].Copy? ==> 3 <= (ts + more)[i].len <= 258 && 1 <= (ts + more)[i].dist <= 32768
    {
      if i >= |ts| { assert (ts + more)[i] == stream[given + i - |ts|]; }
    }
  }

  /** Tokens that codes can give: lengths 3 to 258, distances 1 to 32768. */
  ghost predicate Coded(ts: seq<Token>) {
    forall i {:trigger ts[i]} :: 0 <= i < |ts| ==> ts[i].Copy? ==> 3 <= ts[i].len <= 258 && 1 <= ts[i].dist <= 32768
  }

  /** The furthest any distance code reaches. */
  ghost const FURTHEST: nat := 32768

  /** After h, to play ts comes to the same as to play the stream from the start, if that can be done. */
  ghost predicate Follows(h: seq<int>, ts: seq<Token>, stream: seq<Token>) {
    (Legal(h, ts, FURTHEST) <==> Legal([], stream, FURTHEST)) &&
    (Legal(h, ts, FURTHEST) ==> Play(h, ts, FURTHEST) == Play([], stream, FURTHEST))
  }

  lemma FollowsStart(stream: seq<Token>, ts: seq<Token>)
    requires ts == [] + stream[0..]
    ensures Follows([], ts, stream)
  {
    assert ts == stream;
  }

  lemma FollowsLiteral(h: seq<int>, b: int, ts: seq<Token>, stream: seq<Token>)
    requires Follows(h, [Literal(b)] + ts, stream)
    ensures Follows(h + [b], ts, stream)
  {
    assert ([Literal(b)] + ts)[1..] == ts;
  }

  lemma FollowsHead(h: seq<int>, t: Token, ts: seq<Token>, stream: seq<Token>)
    requires Legal1(h, t, FURTHEST)
    ensures Follows(h, [t] + ts, stream) <==> Follows(Play1(h, t), ts, stream)
  {
    hide Legal1;
    hide Play1;
    assert ([t] + ts)[1..] == ts;
  }

  lemma FollowsPart(h: seq<int>, len: int, dist: int, n: nat, ts: seq<Token>, stream: seq<Token>)
    requires Follows(h, [Copy(len, dist)] + ts, stream) && 1 <= n <= len && 1 <= dist <= |h| && dist <= FURTHEST
    ensures n < len ==> Follows(CopyBack(h, dist, n), [Copy(len - n, dist)] + ts, stream)
    ensures n == len ==> Follows(CopyBack(h, dist, n), ts, stream)
  {
    hide Follows;
    hide CopyBack;
    FollowsHead(h, Copy(len, dist), ts, stream);
    if n < len {
      CopyBackSplit(h, dist, n, len - n);
      FollowsHead(CopyBack(h, dist, n), Copy(len - n, dist), ts, stream);
    }
  }

  lemma FollowsEnd(h: seq<int>, ts: seq<Token>, stream: seq<Token>)
    requires Follows(h, ts, stream) && ts == []
    ensures Legal([], stream, FURTHEST) && h == Play([], stream, FURTHEST)
  {
  }

  ghost predicate Course(h: seq<int>, ts: seq<Token>, stream: seq<Token>, w: nat) {
    Legal(h, ts, w) && Legal([], stream, w) && Play(h, ts, w) == Play([], stream, w)
  }

  lemma CourseStart(stream: seq<Token>, w: nat, ts: seq<Token>)
    requires Legal([], stream, w) && ts == [] + stream[0..]
    ensures Course([], ts, stream, w)
  {
    assert ts == stream;
  }

  /** A literal is put out. */
  lemma CourseLiteral(h: seq<int>, b: int, ts: seq<Token>, stream: seq<Token>, w: nat)
    requires Course(h, [Literal(b)] + ts, stream, w)
    ensures Course(h + [b], ts, stream, w)
  {
    assert ([Literal(b)] + ts)[1..] == ts;
  }

  lemma CourseHead(h: seq<int>, t: Token, ts: seq<Token>, stream: seq<Token>, w: nat)
    requires Legal1(h, t, w)
    ensures Course(h, [t] + ts, stream, w) <==> Course(Play1(h, t), ts, stream, w)
  {
    hide Legal1;
    hide Play1;
    assert ([t] + ts)[1..] == ts;
  }

  lemma CourseLegal(h: seq<int>, t: Token, ts: seq<Token>, stream: seq<Token>, w: nat)
    requires Course(h, [t] + ts, stream, w)
    ensures Legal1(h, t, w)
  {
    hide Legal1;
  }

  /** Part of a match is put out. */
  lemma CoursePart(h: seq<int>, len: int, dist: int, n: nat, ts: seq<Token>, stream: seq<Token>, w: nat)
    requires Course(h, [Copy(len, dist)] + ts, stream, w) && 1 <= n <= len
    ensures 1 <= dist <= |h| && dist <= w
    ensures n < len ==> Course(CopyBack(h, dist, n), [Copy(len - n, dist)] + ts, stream, w)
    ensures n == len ==> Course(CopyBack(h, dist, n), ts, stream, w)
  {
    hide Course;
    hide CopyBack;
    CourseLegal(h, Copy(len, dist), ts, stream, w);
    CourseHead(h, Copy(len, dist), ts, stream, w);
    if n < len {
      CopyBackSplit(h, dist, n, len - n);
      CourseHead(CopyBack(h, dist, n), Copy(len - n, dist), ts, stream, w);
    }
  }

  /** Nothing is left: the output is that of the whole stream. */
  lemma CourseEnd(h: seq<int>, ts: seq<Token>, stream: seq<Token>, w: nat)
    requires Course(h, ts, stream, w) && ts == []
    ensures Legal([], stream, w) && h == Play([], stream, w)
  {
  }

  /** What has been put out is the beginning of the output of the whole stream. */
  lemma CoursePrefix(h: seq<int>, ts: seq<Token>, stream: seq<Token>, w: nat)
    requires Course(h, ts, stream, w)
    ensures Legal([], stream, w) && h <= Play([], stream, w)
  {
    PlayGrows(h, ts, w);
  }

  lemma {:induction false} PlayGrows(h: seq<int>, ts: seq<Token>, w: nat)
    requires Legal(h, ts, w)
    ensures h <= Play(h, ts, w)
    decreases |ts|
  {
    if ts != [] {
      PlayGrows(Play1(h, ts[0]), ts[1..], w);
    }
  }
}
