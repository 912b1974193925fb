/** The tokens deflate tallies, in d_buf and l_buf, and what they stand for. */
module DeflateTokens {
  import opened InflateWindow

  /** The tokens expand to the first n bytes of data; no distance exceeds w. */
  ghost predicate Tells(data: seq<int>, ts: seq<Token>, n: nat, w: nat) {
    n <= |data| && Legal([], ts, w) && Play([], ts, w) == data[..n]
  }

  lemma {:induction false} Append(h: seq<int>, ts: seq<Token>, t: Token, w: nat)
    requires Legal(h, ts, w) && Legal1(Play(h, ts, w), t, w)
    ensures Legal(h, ts + [t], w) && Play(h, ts + [t], w) == Play1(Play(h, ts, w), t)
    decreases |ts|
  {
    hide Legal1;
    hide Play1;
    if ts == [] {
      assert ts + [t] == [t];
      LegalOne(h, t, w);
    } else {
      LegalFirst(h, ts, w);
      assert (ts + [t])[0] == ts[0] && (ts + [t])[1..] == ts[1..] + [t];
      Append(Play1(h, ts[0]), ts[1..], t, w);
    }
  }

  lemma LegalFirst(h: seq<int>, ts: seq<Token>, w: nat)
    requires ts != [] && Legal(h, ts, w)
    ensures Legal1(h, ts[0], w) && (ts[0].Copy? ==> 1 <= ts[0].dist <= |h| && 1 <= ts[0].len)
  {
  }

  lemma LegalOne(h: seq<int>, t: Token, w: nat)
    requires Legal1(h, t, w)
    ensures (t.Copy? ==> 1 <= t.dist <= |h| && 1 <= t.len) && Legal(h, [t], w) && Play(h, [t], w) == Play1(h, t)
  {
  }

  lemma TellsNothing(data: seq<int>, w: nat)
    ensures Tells(data, [], 0, w)
  {
  }

  lemma TellsLiteral(data: seq<int>, ts: seq<Token>, n: nat, w: nat)
    requires Tells(data, ts, n, w) && n < |data|
    ensures Tells(data, ts + [Literal(data[n])], n + 1, w)
  {
    Append([], ts, Literal(data[n]), w);
    assert data[..n] + [data[n]] == data[..n + 1];
  }

  /** Where data repeats itself, copying gives what follows. */
  lemma {:induction false} CopyIsData(data: seq<int>, n: nat, from: nat, len: nat)
    requires from < n && n + len <= |data| && data[from..from + len] == data[n..n + len]
    ensures CopyBack(data[..n], n - from, len) == data[..n + len]
    decreases len
  {
    if len > 0 {
      assert data[from] == data[from..from + len][0] == data[n];
      assert data[..n] + [data[n]] == data[..n + 1];
      assert data[from + 1..from + 1 + (len - 1)] == data[from..from + len][1..] == data[n + 1..n + 1 + (len - 1)];
      CopyIsData(data, n + 1, from + 1, len - 1);
    }
  }

  lemma TellsCopy(data: seq<int>, ts: seq<Token>, n: nat, w: nat, from: nat, len: nat)
    requires Tells(data, ts, n, w) && from < n && n - from <= w && 1 <= len && n + len <= |data|
    requires data[from..from + len] == data[n..n + len]
    ensures Tells(data, ts + [Copy(len, n - from)], n + len, w)
  {
    CopyIsData(data, n, from, len);
    Append([], ts, Copy(len, n - from), w);
  }

  /** More data does not change what was told. */
  lemma TellsMore(data: seq<int>, more: seq<int>, ts: seq<Token>, n: nat, w: nat)
    requires Tells(data, ts, n, w)
    ensures Tells(data + more, ts, n, w)
  {
    assert (data + more)[..n] == data[..n];
  }

  /* ---------- the buffers ---------- */

  /** What a pair of entries says: distance zero marks a literal. */
  function TokenOf(dist: int, lc: int): Token { if dist == 0 then Literal(lc) else Copy(lc + 3, dist) }

  ghost function Buffered(dBuf: seq<int>, lBuf: seq<int>, n: nat): seq<Token>
    requires n <= |dBuf| && n <= |lBuf|
  {
    seq(n, i requires 0 <= i < n => TokenOf(dBuf[i], lBuf[i]))
  }

  lemma BufferedNone(dBuf: seq<int>, lBuf: seq<int>)
    ensures Buffered(dBuf, lBuf, 0) == []
  {
  }

  lemma BufferedNext(dBuf: seq<int>, lBuf: seq<int>, n: nat, dist: int, lc: int, done: seq<Token>, ts: seq<Token>)
    requires n < |dBuf| && n < |lBuf| && ts == done + Buffered(dBuf, lBuf, n)
    ensures ts + [TokenOf(dist, lc)] == done + Buffered(dBuf[n := dist], lBuf[n := lc], n + 1)
  {
    var b, b' := Buffered(dBuf, lBuf, n), Buffered(dBuf[n := dist], lBuf[n := lc], n + 1);
    assert b' == b + [TokenOf(dist, lc)];
    assert done + b + [TokenOf(dist, lc)] == done + (b + [TokenOf(dist, lc)]);
  }

  /** A stream for a small window is one for a larger window. */
  lemma {:induction false} LegalWider(h: seq<int>, ts: seq<Token>, w: nat, w': nat)
    requires Legal(h, ts, w) && w <= w'
    ensures Legal(h, ts, w') && Play(h, ts, w') == Play(h, ts, w)
    decreases |ts|
  {
    hide Play1;
    if ts != [] { LegalWider(Play1(h, ts[0]), ts[1..], w, w'); }
  }
}
