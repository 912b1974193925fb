/** The two halves of zlib, token by token: what deflate tallies, inflate turns back into the input. */
module DeflateInflate {
  import opened Bits
  import opened ByteSeq
  import opened InflateWindow
  import opened DeflateTokens
  import opened DeflateMatch
  import opened DeflateSteps
  import D = Deflate

  /** Tokens for a smaller window are legal for inflate, and expand to the data. */
  lemma LegalForInflate(data: seq<int>, ts: seq<Token>, reach: nat, wbits: nat)
    requires Tells(data, ts, |data|, reach) && reach <= Pow2(wbits)
    ensures Legal([], ts, Pow2(wbits)) && Play([], ts, Pow2(wbits)) == data
  {
    LegalWider([], ts, reach, Pow2(wbits));
    assert data[..|data|] == data;
  }

  /** One call with room for a byte more than there is takes all of the tokens. */
  method InflateAll(ts: seq<Token>, ghost data: seq<int>, room: nat, ghost reach: nat, wbits: nat, enough: nat)
    returns (out: array<int>, n: nat)
    requires 8 <= wbits <= 15 && reach <= Pow2(wbits) && Tells(data, ts, |data|, reach) && Coded(ts) && |data| < room
    ensures fresh(out) && n <= out.Length && out[..n] == data
  {
    hide *;
    LegalForInflate(data, ts, reach, wbits);
    var strm := new Inflate(wbits, ts);
    GoodIs(strm);
    PartOf(ts);
    out, n := strm.Call(room, ts, enough);
    Nothing(out[..n]);
  }

  lemma GoodIs(strm: Inflate)
    ensures strm.Good() <==> Legal([], strm.stream, Pow2(strm.wbits))
  {
    hide Legal;
  }

  lemma PartOf(ts: seq<Token>)
    ensures 0 + |ts| <= |ts| && ts[0..0 + |ts|] == ts
  {
  }

  lemma Nothing(s: seq<int>)
    ensures [] + s == s
  {
  }

  /** What is deflated in one call with enough room inflates to itself, whatever the level, the strategy
      and the two window sizes, as long as the second is not smaller. */
  method RoundTrip(source: seq<int>, level: nat, wbits: nat, memLevel: nat, strategy: Strategy, wbits': nat,
      enough: nat)
    returns (out: array<int>, n: nat)
    requires AreBytes(source) && 1 <= level <= 9 && 8 <= wbits <= 15 && 1 <= memLevel <= 9
    requires (if wbits == 8 then 9 else wbits) <= wbits' <= 15
    ensures n <= out.Length && out[..n] == source
  {
    hide *;
    var d := new D.Deflater(level, wbits, memLevel, strategy);
    Nothing(source);
    var code := d.Deflate(source, D.Finish, true);
    AllTold(d.data, d.input, source);
    PowersGrow(if wbits == 8 then 9 else wbits, wbits');
    MinLookahead();
    out, n := InflateAll(d.done, source, |source| + 1, d.wsize - 262, wbits', enough);
  }

  lemma AllTold(data: seq<int>, input: seq<int>, source: seq<int>)
    requires data + input == source && input == []
    ensures data == source
  {
  }

  lemma MinLookahead()
    ensures MIN_LOOKAHEAD == 262
  {
  }

  lemma PowersGrow(a: nat, b: nat)
    requires 9 <= a <= b
    ensures 262 <= Pow2(a) <= Pow2(b)
  {
    Pow2Sum(9, a - 9);
    Pow2Sum(a, b - a);
    assert Pow2(9) == 512;
    MulAtLeast(Pow2(a - 9), Pow2(9));
    MulAtLeast(Pow2(b - a), Pow2(a));
  }
}
