/** inflate.c, a block of compressed codes: the tables are built, the symbols and extra bits are read,
    and the tokens they make are turned into output. */
module InflateBlock {
  import opened Bits
  import opened ByteSeq
  import opened CanonicalCode
  import opened CodeOrder
  import opened ReversedBits
  import opened InflateCodes
  import opened InflateTable
  import opened InflateDecode
  import opened InflateWindow
  import opened DeflateTokens
  import DeflateInflate

  /* ---------- a block as it stands in the stream (sections 3.2.2 and 3.2.5 of RFC 1951) ---------- */

  /** A token as it is written: a literal, or two symbols, each with extra bits. */
  datatype Piece = Lit(b: nat) | Match(ls: nat, lx: nat, ds: nat, dx: nat)

  /** How many extra bits a length or distance symbol has. */
  function Extra(op: int): (n: nat) { op % 16 }

  ghost predicate Coded1(lens: seq<int>, s: nat) {
    s < |lens| && 1 <= lens[s] <= MAXBITS
  }

  /** A piece whose symbols have codes. */
  ghost predicate Writable(p: Piece, lens: seq<int>, dists: seq<int>) {
    match p
    case Lit(b) => b < 256 && Coded1(lens, b)
    case Match(ls, lx, ds, dx) =>
      257 <= ls <= 285 && Coded1(lens, ls) && lx < Pow2(LengthExtra(ls)) && ds < 30 && Coded1(dists, ds) &&
      dx < Pow2(DistExtra(ds))
  }

  ghost function TokenOf(p: Piece): Token
    requires p.Match? ==> 257 <= p.ls <= 285 && p.ds < 30
  {
    match p
    case Lit(b) => Literal(b)
    case Match(ls, lx, ds, dx) => Copy(LengthBase(ls) + lx, DistBase(ds) + dx)
  }

  /** The code of symbol s, and then the rest. */
  ghost function CodeThen(lens: seq<int>, s: nat, rest: Stream): Stream
    requires Coded1(lens, s)
  {
    Then(Rev(Code(lens, s), lens[s]), lens[s], rest)
  }

  ghost function PieceThen(p: Piece, lens: seq<int>, dists: seq<int>, rest: Stream): Stream
    requires Writable(p, lens, dists)
  {
    match p
    case Lit(b) => CodeThen(lens, b, rest)
    case Match(ls, lx, ds, dx) =>
      CodeThen(lens, ls, Then(lx, LengthExtra(ls), CodeThen(dists, ds, Then(dx, DistExtra(ds), rest))))
  }

  ghost predicate AllWritable(ps: seq<Piece>, lens: seq<int>, dists: seq<int>) {
    Coded1(lens, 256) && forall i :: 0 <= i < |ps| ==> Writable(ps[i], lens, dists)
  }

  /** The pieces from i on, the end of block code, and the rest. */
  ghost function BlockThen(ps: seq<Piece>, i: nat, lens: seq<int>, dists: seq<int>, rest: Stream): Stream
    requires i <= |ps| && AllWritable(ps, lens, dists)
    decreases |ps| - i
  {
    if i == |ps| then CodeThen(lens, 256, rest)
      else PieceThen(ps[i], lens, dists, BlockThen(ps, i + 1, lens, dists, rest))
  }

  ghost function TokensOf(ps: seq<Piece>, lens: seq<int>, dists: seq<int>): seq<Token>
    requires AllWritable(ps, lens, dists)
  {
    seq(|ps|, i requires 0 <= i < |ps| => TokenOf(ps[i]))
  }

  /* ---------- symbols and extra bits ---------- */

  lemma CodeComes(lens: seq<int>, typ: CodeType, s: nat, rest: Stream)
    requires Coded1(lens, s) && s < Symbols(typ)
    ensures Comes(lens, typ, s, CodeThen(lens, s, rest), rest)
  {
    hide Pow2;
    hide Rev;
    hide Code;
    RevBound(Code(lens, s), lens[s]);
    ThenWithout(Rev(Code(lens, s), lens[s]), lens[s], rest);
  }

  /** A stream is its first bits and what follows them. */
  lemma ThenOf(st: Stream, n: nat)
    requires n <= st.n
    ensures st == Then(Low(st.x, n), n, Without(st, n))
  {
    DivMod(st.x, Pow2(n));
    Swapped(High(st.x, n), Pow2(n));
  }

  lemma Swapped(a: nat, b: nat)
    ensures a * b == b * a
  {
  }

  /** The code comes that is found. */
  lemma ComesCode(lens: seq<int>, typ: CodeType, s: nat, st: Stream, rest: Stream)
    requires Comes(lens, typ, s, st, rest)
    ensures s < Symbols(typ) && Coded1(lens, s) && st == CodeThen(lens, s, rest)
  {
    hide Pow2;
    hide Rev;
    hide Code;
    hide Low;
    ThenOf(st, lens[s]);
  }

  /** NEEDBITS, BITS and DROPBITS. */
  method ReadExtra(src: BitSource, n: nat, ghost v: nat, ghost rest: Stream) returns (ok: bool, x: nat)
    requires src.Valid() && n <= 15
    modifies src
    ensures src.Valid() && src.Ahead().n <= old(src.Ahead().n) && (ok ==> x < Pow2(n))
    ensures ok ==> old(src.Ahead()) == Then(x, n, src.Ahead())
    ensures !ok ==> old(src.Ahead()).n < n
    ensures v < Pow2(n) && old(src.Ahead()) == Then(v, n, rest) ==> ok && x == v && src.Ahead() == rest
  {
    hide *;
    ghost var st := src.Ahead();
    ghost var good := v < Pow2(n) && st == Then(v, n, rest);
    while src.bits < n
      invariant src.Valid() && src.Ahead() == st
      decreases |src.input|
    {
      var pulled := src.PullByte();
      if !pulled {
        src.HoldIs();
        if good { ThenLong(v, n, rest); }
        return false, 0;
      }
    }
    src.PeekIs(n);
    src.HoldIs();
    WithoutSize(st, n);
    ThenOf(st, n);
    x := src.Peek(n);
    PeekLow(src, n);
    src.DropBits(n);
    ok := true;
    if good { ThenWithout(v, n, rest); }
  }

  lemma ThenLong(v: nat, n: nat, rest: Stream)
    ensures Then(v, n, rest).n >= n
  {
  }

  /* ---------- the states LEN to DISTEXT ---------- */

  /** What a table entry for a length means: bits of op say which. */
  function HasBit(op: int, b: nat): bool
    requires b > 0
  {
    op / b % 2 == 1
  }

  lemma LengthEntry(s: nat, bits: int)
    requires s < Symbols(LENS)
    ensures var e := EntryOf(LENS, s, bits);
      (e.op == 0 <==> s < 256) && (s < 256 ==> e.val == s) && (s == 256 ==> HasBit(e.op, 32)) &&
      (s > 285 ==> HasBit(e.op, 64)) && (HasBit(e.op, 32) ==> s == 256) &&
      (HasBit(e.op, 64) ==> s == 256 || s > 285)
    ensures 257 <= s <= 285 ==> var e := EntryOf(LENS, s, bits);
      e.op == 16 + LengthExtra(s) && !HasBit(e.op, 32) && !HasBit(e.op, 64) && Extra(e.op) == LengthExtra(s) <= 5 &&
      e.val == LengthBase(s)
  {
    hide LengthExtra;
    hide LengthBase;
    if 257 <= s <= 285 {
      LengthRow(s);
      FewExtra(s);
    }
  }

  lemma FewExtra(ls: nat)
    requires 257 <= ls <= 285
    ensures LengthExtra(ls) <= 5
  {
  }

  lemma DistEntry(s: nat, bits: int)
    requires s < 32
    ensures s >= 30 ==> HasBit(EntryOf(DISTS, s, bits).op, 64)
    ensures s < 30 ==> var e := EntryOf(DISTS, s, bits);
      e.op == 16 + DistExtra(s) && !HasBit(e.op, 64) && Extra(e.op) == DistExtra(s) <= 13 && e.val == DistBase(s)
  {
    hide DistBase;
    if s < 30 { DistRow(s); }
  }

  /** What a length symbol can stand for ends below 259. */
  lemma LengthRange(ls: nat)
    requires 257 <= ls <= 285
    ensures 3 <= LengthBase(ls) && LengthBase(ls) + Pow2(LengthExtra(ls)) <= 259
  {
    hide Pow2;
    SmallPowers();
  }

  lemma DistanceRange(ds: nat)
    requires ds < 30
    ensures 1 <= DistBase(ds) && DistBase(ds) + Pow2(DistExtra(ds)) <= 32769
  {
    hide Pow2;
    SmallPowers();
  }

  lemma MarkIs()
    ensures Invalid(1).op == 64 && HasBit(64, 64) && !HasBit(64, 32)
  {
  }

  lemma RowSizes()
    ensures Symbols(LENS) == 288 && Symbols(DISTS) == 32
  {
  }

  /** Any entry that is not marked otherwise is for a literal, or for a length from 3 on. */
  lemma AnyLength(here: Entry)
    requires IsEntry(LENS, here)
    ensures here.op == 0 ==> 0 <= here.val < 256
    ensures here.op != 0 && !HasBit(here.op, 32) && !HasBit(here.op, 64) ==>
      Extra(here.op) <= 5 && 3 <= here.val && here.val + Pow2(Extra(here.op)) <= 259
  {
    hide *;
    MarkIs();
    RowSizes();
    var some, s := EntrySymbol(LENS, here);
    if some {
      LengthEntry(s, here.bits);
      if 257 <= s <= 285 {
        LengthRange(s);
      }
    }
  }

  lemma EntrySymbol(typ: CodeType, here: Entry) returns (some: bool, s: nat)
    requires IsEntry(typ, here)
    ensures some ==> s < Symbols(typ) && here == EntryOf(typ, s, here.bits)
    ensures !some ==> here == Invalid(1)
  {
    hide EntryOf;
    hide Invalid;
    s := 0;
    some := here != Invalid(1);
    if some { s :| EntryFor(typ, here, s); }
  }

  lemma AnyDistance(here: Entry)
    requires IsEntry(DISTS, here)
    ensures !HasBit(here.op, 64) ==> Extra(here.op) <= 13 && 1 <= here.val && here.val + Pow2(Extra(here.op)) <= 32769
  {
    hide *;
    MarkIs();
    RowSizes();
    var some, s := EntrySymbol(DISTS, here);
    if some {
      DistEntry(s, here.bits);
      if s < 30 {
        DistanceRange(s);
      }
    }
  }

  /** The tables in the array of codes: lengths from 0 on, distances from next on. */
  ghost predicate Built2(codes: array<Entry>, next: nat, lens: seq<int>, lenbits: nat, used: nat, dists: seq<int>,
      distbits: nat, used': nat)
    reads codes
  {
    next <= codes.Length && Built(codes[0..], LENS, lens, lenbits, used) &&
    Built(codes[next..], DISTS, dists, distbits, used')
  }

  lemma Built2Parts(codes: array<Entry>, next: nat, lens: seq<int>, lenbits: nat, used: nat, dists: seq<int>,
      distbits: nat, used': nat)
    requires Built2(codes, next, lens, lenbits, used, dists, distbits, used')
    ensures next <= codes.Length && Built(codes[0..], LENS, lens, lenbits, used) &&
      Built(codes[next..], DISTS, dists, distbits, used')
  {
    hide Built;
  }

  /** The stream starts with piece p, which rest follows. */
  ghost predicate PieceComes(p: Piece, lens: seq<int>, dists: seq<int>, st: Stream, rest: Stream) {
    Writable(p, lens, dists) && st == PieceThen(p, lens, dists, rest)
  }

  ghost predicate EndComes(lens: seq<int>, st: Stream, rest: Stream) {
    Coded1(lens, 256) && st == CodeThen(lens, 256, rest)
  }

  ghost function AfterLength(p: Piece, dists: seq<int>, rest: Stream): Stream
    requires p.Match? && 257 <= p.ls <= 285 && p.ds < 30 && Coded1(dists, p.ds)
  {
    Then(p.lx, LengthExtra(p.ls), CodeThen(dists, p.ds, Then(p.dx, DistExtra(p.ds), rest)))
  }

  /** The stream goes on with what follows the length symbol of p, whose entry here is. */
  ghost predicate MatchComes(p: Piece, dists: seq<int>, here: Entry, st: Stream, rest: Stream) {
    p.Match? && 257 <= p.ls <= 285 && p.ds < 30 && p.lx < Pow2(LengthExtra(p.ls)) && p.dx < Pow2(DistExtra(p.ds)) &&
    Coded1(dists, p.ds) && Extra(here.op) == LengthExtra(p.ls) && here.val == LengthBase(p.ls) &&
    st == AfterLength(p, dists, rest)
  }

  /** The parts of a piece in the order they are read. */
  lemma PieceParts(p: Piece, lens: seq<int>, dists: seq<int>, st: Stream, rest: Stream)
    requires PieceComes(p, lens, dists, st, rest)
    ensures p.Lit? ==> p.b < 256 && Comes(lens, LENS, p.b, st, rest)
    ensures p.Match? ==> 257 <= p.ls <= 285 && p.ds < 30 && Coded1(dists, p.ds)
    ensures p.Match? ==> Comes(lens, LENS, p.ls, st, AfterLength(p, dists, rest))
    ensures p.Match? ==> forall here: Entry :: Extra(here.op) == LengthExtra(p.ls) && here.val == LengthBase(p.ls) ==>
      MatchComes(p, dists, here, AfterLength(p, dists, rest), rest)
  {
    hide Then;
    hide CodeThen;
    hide Comes;
    hide Pow2;
    match p
    case Lit(b) => CodeComes(lens, LENS, b, rest);
    case Match(ls, lx, ds, dx) => CodeComes(lens, LENS, ls, AfterLength(p, dists, rest));
  }

  /** As inflate can play it. */
  ghost predicate InRange(t: Token) {
    match t
    case Literal(b) => 0 <= b < 256
    case Copy(len, dist) => 3 <= len <= 258 && 1 <= dist <= 32768
  }

  /** A match with length symbol ls that can be written. */
  ghost predicate MatchOf(q: Piece, ls: nat, dists: seq<int>) {
    q.Match? && q.ls == ls && 257 <= ls <= 285 && q.ds < 30 && q.lx < Pow2(LengthExtra(q.ls)) &&
    q.dx < Pow2(DistExtra(q.ds)) && Coded1(dists, q.ds)
  }

  lemma MatchIntro(q: Piece, ls: nat, dists: seq<int>, a: Stream, b: Stream, c: Stream, rest: Stream)
    requires q.Match? && q.ls == ls && 257 <= ls <= 285 && q.ds < 30 && q.lx < Pow2(LengthExtra(q.ls)) &&
      q.dx < Pow2(DistExtra(q.ds))
    requires a == Then(q.lx, LengthExtra(ls), b) && Comes(dists, DISTS, q.ds, b, c) &&
      c == Then(q.dx, DistExtra(q.ds), rest)
    ensures MatchOf(q, ls, dists) && a == AfterLength(q, dists, rest)
    ensures TokenOf(q) == Copy(LengthBase(ls) + q.lx, DistBase(q.ds) + q.dx)
  {
    hide *;
    ComesCode(dists, DISTS, q.ds, b, c);
    MatchIs(q, ls, dists, rest);
  }

  lemma MatchIs(q: Piece, ls: nat, dists: seq<int>, rest: Stream)
    requires q.Match? && q.ls == ls && 257 <= ls <= 285 && q.ds < 30 && q.lx < Pow2(LengthExtra(q.ls)) &&
      q.dx < Pow2(DistExtra(q.ds)) && Coded1(dists, q.ds)
    ensures MatchOf(q, ls, dists) && TokenOf(q) == Copy(LengthBase(ls) + q.lx, DistBase(q.ds) + q.dx)
    ensures AfterLength(q, dists, rest) ==
      Then(q.lx, LengthExtra(q.ls), CodeThen(dists, q.ds, Then(q.dx, DistExtra(q.ds), rest)))
  {
    hide Pow2;
    hide Then;
    hide CodeThen;
    hide Coded1;
    hide LengthExtra;
    hide DistExtra;
    hide LengthBase;
    hide DistBase;
  }

  /* ---------- where reading ends without a block ---------- */

  ghost predicate ExtraComes(v: nat, n: nat, st: Stream, rest: Stream) { v < Pow2(n) && st == Then(v, n, rest) }

  /** What comes is the code of no symbol, or of one that stands for nothing. */
  ghost predicate Unknown(lens: seq<int>, typ: CodeType, limit: nat, st: Stream) {
    NoneStarts(lens, st) || exists s, rest :: s >= limit && Comes(lens, typ, s, st, rest)
  }

  /** The stream ends within a distance. */
  ghost predicate DistanceCut(dists: seq<int>, st: Stream) {
    Starved(dists, st) || exists ds, rest :: ds < 30 && Comes(dists, DISTS, ds, st, rest) && rest.n < DistExtra(ds)
  }

  /** The stream ends within what follows length symbol ls. */
  ghost predicate MatchCut(ls: nat, dists: seq<int>, st: Stream)
    requires 257 <= ls <= 285
  {
    st.n < LengthExtra(ls) || exists lx, rest :: ExtraComes(lx, LengthExtra(ls), st, rest) && DistanceCut(dists, rest)
  }

  ghost predicate MatchFaulty(ls: nat, dists: seq<int>, st: Stream)
    requires 257 <= ls <= 285
  {
    exists lx, rest :: ExtraComes(lx, LengthExtra(ls), st, rest) && Unknown(dists, DISTS, 30, rest)
  }

  /** The stream ends before the next token does. */
  ghost predicate CutShort(lens: seq<int>, dists: seq<int>, st: Stream) {
    Starved(lens, st) ||
    exists ls, rest :: 257 <= ls <= 285 && Comes(lens, LENS, ls, st, rest) && MatchCut(ls, dists, rest)
  }

  /** The next token has a symbol that stands for nothing. */
  ghost predicate Faulty(lens: seq<int>, dists: seq<int>, st: Stream) {
    Unknown(lens, LENS, 286, st) ||
    exists ls, rest :: 257 <= ls <= 285 && Comes(lens, LENS, ls, st, rest) && MatchFaulty(ls, dists, rest)
  }

  lemma IsUnknown(lens: seq<int>, typ: CodeType, limit: nat, s: nat, st: Stream, rest: Stream)
    requires NoneStarts(lens, st) || (s >= limit && Comes(lens, typ, s, st, rest))
    ensures Unknown(lens, typ, limit, st)
  {
    hide NoneStarts;
    hide Comes;
  }

  lemma ExtraCut(ls: nat, dists: seq<int>, st: Stream)
    requires 257 <= ls <= 285 && st.n < LengthExtra(ls)
    ensures MatchCut(ls, dists, st)
  {
    hide DistanceCut;
    hide ExtraComes;
  }

  lemma DistanceIsCut(ls: nat, lx: nat, dists: seq<int>, st: Stream, mid: Stream, ds: nat, rest: Stream)
    requires 257 <= ls <= 285 && lx < Pow2(LengthExtra(ls)) && st == Then(lx, LengthExtra(ls), mid)
    requires Starved(dists, mid) || (ds < 30 && Comes(dists, DISTS, ds, mid, rest) && rest.n < DistExtra(ds))
    ensures MatchCut(ls, dists, st)
  {
    hide Starved;
    hide Comes;
    hide Pow2;
    assert DistanceCut(dists, mid);
    assert ExtraComes(lx, LengthExtra(ls), st, mid);
  }

  lemma DistanceUnknown(ls: nat, lx: nat, dists: seq<int>, st: Stream, mid: Stream, ds: nat, rest: Stream)
    requires 257 <= ls <= 285 && lx < Pow2(LengthExtra(ls)) && st == Then(lx, LengthExtra(ls), mid)
    requires NoneStarts(dists, mid) || (ds >= 30 && Comes(dists, DISTS, ds, mid, rest))
    ensures MatchFaulty(ls, dists, st)
  {
    hide Unknown;
    hide Pow2;
    IsUnknown(dists, DISTS, 30, ds, mid, rest);
    assert ExtraComes(lx, LengthExtra(ls), st, mid);
  }

  lemma MatchEnds(lens: seq<int>, dists: seq<int>, ls: nat, st: Stream, rest: Stream)
    requires 257 <= ls <= 285 && Comes(lens, LENS, ls, st, rest)
    ensures MatchCut(ls, dists, rest) ==> CutShort(lens, dists, st)
    ensures MatchFaulty(ls, dists, rest) ==> Faulty(lens, dists, st)
  {
    hide Starved;
    hide Unknown;
    hide Comes;
    hide MatchCut;
    hide MatchFaulty;
  }

  lemma FirstEnds(lens: seq<int>, dists: seq<int>, st: Stream)
    ensures Starved(lens, st) ==> CutShort(lens, dists, st)
    ensures Unknown(lens, LENS, 286, st) ==> Faulty(lens, dists, st)
  {
    hide Starved;
    hide Unknown;
    hide MatchCut;
    hide MatchFaulty;
  }

  /** LENEXT, DIST and DISTEXT: what follows a length symbol. */
  method ReadMatch(src: BitSource, codes: array<Entry>, next: nat, distbits: nat, here: Entry, ghost dists: seq<int>,
      ghost used': nat,
                   ghost ls: nat, ghost p: Piece, ghost rest: Stream)
    returns (st: Status, t: Token, ghost q: Piece)
    requires src.Valid() && next <= codes.Length && Built(codes[next..], DISTS, dists, distbits, used')
    requires Extra(here.op) <= 15 && 3 <= here.val && here.val + Pow2(Extra(here.op)) <= 259
    requires 257 <= ls <= 285 && Extra(here.op) == LengthExtra(ls) && here.val == LengthBase(ls)
    modifies src
    ensures src.Valid() && (st.Fine? || st.Short? || st.Bad?) && src.Ahead().n <= old(src.Ahead().n) &&
      (st.Fine? ==> InRange(t))
    ensures st.Fine? ==>
      MatchOf(q, ls, dists) && t == TokenOf(q) && old(src.Ahead()) == AfterLength(q, dists, src.Ahead())
    ensures st.Short? ==> MatchCut(ls, dists, old(src.Ahead()))
    ensures st.Bad? ==> MatchFaulty(ls, dists, old(src.Ahead()))
    ensures old(MatchComes(p, dists, here, src.Ahead(), rest)) ==>
      st.Fine? && p.Match? && 257 <= p.ls <= 285 && p.ds < 30 && t == TokenOf(p) && src.Ahead() == rest
  {
    hide Then;
    hide CodeThen;
    hide Comes;
    hide Pow2;
    hide Built;
    hide HasBit;
    ghost var good := MatchComes(p, dists, here, src.Ahead(), rest);
    ghost var afterDist := if good then Then(p.dx, DistExtra(p.ds), rest) else rest;
    ghost var afterExtra := if good then CodeThen(dists, p.ds, afterDist) else rest;
    ghost var st0 := src.Ahead();
    t := Literal(0);
    q := Lit(0);
    var ok, x := ReadExtra(src, Extra(here.op), if good then p.lx else 0, afterExtra);
    if !ok {
      ExtraCut(ls, dists, st0);
      return Short, t, q;
    }
    ghost var lx, st1 := x, src.Ahead();
    var length := here.val + x;
    if good { CodeComes(dists, DISTS, p.ds, afterDist); }
    var dist;
    ghost var ds;
    ok, dist, ds :=
      ReadSymbol(src, codes, next, distbits, DISTS, dists, used', if good then p.ds else 0, afterDist);
    ghost var st2 := src.Ahead();
    if !ok {
      DistanceIsCut(ls, lx, dists, st0, st1, 0, st2);
      return Short, t, q;
    }
    if good { DistEntry(p.ds, dist.bits); }
    AnyDistance(dist);
    MarkIs();
    RowSizes();
    if !(dist == Invalid(1) && NoneStarts(dists, st1)) { DistEntry(ds, dist.bits); }
    if HasBit(dist.op, 64) {
      DistanceUnknown(ls, lx, dists, st0, st1, ds, st2);
      return Bad, t, q;
    }
    ok, x := ReadExtra(src, Extra(dist.op), if good then p.dx else 0, rest);
    if !ok {
      DistanceIsCut(ls, lx, dists, st0, st1, ds, st2);
      return Short, t, q;
    }
    q := Match(ls, lx, ds, x);
    MatchIntro(q, ls, dists, st0, st1, st2, src.Ahead());
    return Fine, Copy(length, dist.val + x), q;
  }

  /** LEN and what follows it: one token, or the end of the block. */
  method ReadToken(src: BitSource, codes: array<Entry>, next: nat, lenbits: nat, distbits: nat, ghost lens: seq<int>,
      ghost used: nat,
                   ghost dists: seq<int>, ghost used': nat, ghost last: bool, ghost p: Piece, ghost rest: Stream)
    returns (st: Status, t: Token, ghost q: Piece)
    requires src.Valid() && Built2(codes, next, lens, lenbits, used, dists, distbits, used')
    modifies src
    ensures src.Valid() && (st.Fine? || st.BlockEnd? ==> src.Ahead().n < old(src.Ahead().n)) &&
      (st.Fine? ==> InRange(t))
    ensures st.Fine? ==> (q.Match? ==> 257 <= q.ls <= 285 && q.ds < 30) && t == TokenOf(q)
    ensures st.Fine? ==> PieceComes(q, lens, dists, old(src.Ahead()), src.Ahead())
    ensures st.BlockEnd? ==> EndComes(lens, old(src.Ahead()), src.Ahead())
    ensures st.Short? ==> CutShort(lens, dists, old(src.Ahead()))
    ensures st.Bad? ==> Faulty(lens, dists, old(src.Ahead()))
    ensures !last && old(PieceComes(p, lens, dists, src.Ahead(), rest)) ==>
      st.Fine? && (p.Match? ==> 257 <= p.ls <= 285 && p.ds < 30) && t == TokenOf(p) && src.Ahead() == rest
    ensures last && old(EndComes(lens, src.Ahead(), rest)) ==> st.BlockEnd? && src.Ahead() == rest
  {
    hide *;
    Built2Parts(codes, next, lens, lenbits, used, dists, distbits, used');
    ghost var good, end :=
      !last && PieceComes(p, lens, dists, src.Ahead(), rest), last && EndComes(lens, src.Ahead(), rest);
    ghost var s, after := 256, rest;
    if good {
      PieceParts(p, lens, dists, src.Ahead(), rest);
      s := if p.Lit? then p.b else p.ls;
      if p.Match? { after := AfterLength(p, dists, rest); }
    } else if end {
      EndParts(lens, src.Ahead(), rest);
    }
    ghost var st0 := src.Ahead();
    t := Literal(0);
    q := Lit(0);
    var ok, here;
    ghost var got;
    ok, here, got := ReadSymbol(src, codes, 0, lenbits, LENS, lens, used, s, after);
    FirstEnds(lens, dists, st0);
    if !ok { return Short, t, q; }
    RowSizes();
    MarkIs();
    if good || end { LengthEntry(s, here.bits); }
    AnyLength(here);
    if !(here == Invalid(1) && NoneStarts(lens, st0)) {
      LengthEntry(got, here.bits);
      ComesCode(lens, LENS, got, st0, src.Ahead());
    }
    if here.op == 0 {
      LiteralInRange(here.val);
      if good && p.Lit? { LitIs(p); }
      q := Lit(here.val);
      LitIs(q);
      LitComes(q, lens, dists, st0, src.Ahead());
      return Fine, Literal(here.val), q;
    }
    if HasBit(here.op, 32) {
      EndIntro(lens, st0, src.Ahead());
      return BlockEnd, t, q;
    }
    if HasBit(here.op, 64) {
      IsUnknown(lens, LENS, 286, got, st0, src.Ahead());
      return Bad, t, q;
    }
    ghost var st1 := src.Ahead();
    st, t, q := ReadMatch(src, codes, next, distbits, here, dists, used', got, p, rest);
    MatchEnds(lens, dists, got, st0, st1);
    if st.Fine? { MatchPiece(q, got, lens, dists, st0, st1, src.Ahead()); }
  }

  lemma LitComes(q: Piece, lens: seq<int>, dists: seq<int>, st: Stream, rest: Stream)
    requires q.Lit? && q.b < 256 && Coded1(lens, q.b) && st == CodeThen(lens, q.b, rest)
    ensures PieceComes(q, lens, dists, st, rest)
  {
    hide CodeThen;
  }

  lemma EndIntro(lens: seq<int>, st: Stream, rest: Stream)
    requires Coded1(lens, 256) && st == CodeThen(lens, 256, rest)
    ensures EndComes(lens, st, rest)
  {
    hide CodeThen;
  }

  lemma MatchPiece(q: Piece, ls: nat, lens: seq<int>, dists: seq<int>, st: Stream, mid: Stream, rest: Stream)
    requires MatchOf(q, ls, dists) && Coded1(lens, ls) && st == CodeThen(lens, ls, mid) &&
      mid == AfterLength(q, dists, rest)
    ensures PieceComes(q, lens, dists, st, rest) && 257 <= q.ls <= 285 && q.ds < 30
  {
    hide CodeThen;
    hide Then;
    hide Pow2;
  }

  lemma EndParts(lens: seq<int>, st: Stream, rest: Stream)
    requires EndComes(lens, st, rest)
    ensures Comes(lens, LENS, 256, st, rest)
  {
    hide Comes;
    CodeComes(lens, LENS, 256, rest);
  }

  lemma LiteralInRange(b: int)
    requires 0 <= b < 256
    ensures InRange(Literal(b))
  {
  }

  lemma LitIs(p: Piece)
    requires p.Lit?
    ensures TokenOf(p) == Literal(p.b)
  {
  }

  /* ---------- the whole block ---------- */

  /** The rest of a block, from piece i on. */
  ghost predicate BlockComes(ps: seq<Piece>, i: nat, lens: seq<int>, dists: seq<int>, st: Stream, rest: Stream) {
    i <= |ps| && AllWritable(ps, lens, dists) && st == BlockThen(ps, i, lens, dists, rest)
  }

  lemma BlockNext(ps: seq<Piece>, i: nat, lens: seq<int>, dists: seq<int>, st: Stream, rest: Stream)
    requires BlockComes(ps, i, lens, dists, st, rest)
    ensures i == |ps| ==> EndComes(lens, st, rest)
    ensures i < |ps| ==>
      AllWritable(ps, lens, dists) && PieceComes(ps[i], lens, dists, st, BlockThen(ps, i + 1, lens, dists, rest))
    ensures i < |ps| ==> BlockComes(ps, i + 1, lens, dists, BlockThen(ps, i + 1, lens, dists, rest), rest)
  {
    hide CodeThen;
    hide PieceThen;
    hide Coded1;
  }

  ghost predicate Got(tokens: seq<Token>, ps: seq<Piece>, i: nat, lens: seq<int>, dists: seq<int>) {
    i <= |ps| && AllWritable(ps, lens, dists) && |tokens| == i && tokens == TokensOf(ps, lens, dists)[..i]
  }

  lemma GotNone(ps: seq<Piece>, lens: seq<int>, dists: seq<int>)
    requires AllWritable(ps, lens, dists)
    ensures Got([], ps, 0, lens, dists)
  {
    hide AllWritable;
  }

  lemma GotNext(tokens: seq<Token>, ps: seq<Piece>, i: nat, lens: seq<int>, dists: seq<int>)
    requires Got(tokens, ps, i, lens, dists) && i < |ps|
    ensures ps[i].Match? ==> 257 <= ps[i].ls <= 285 && ps[i].ds < 30
    ensures Got(tokens + [TokenOf(ps[i])], ps, i + 1, lens, dists)
  {
    hide TokenOf;
    assert Writable(ps[i], lens, dists);
  }

  lemma GotAll(tokens: seq<Token>, ps: seq<Piece>, lens: seq<int>, dists: seq<int>)
    requires Got(tokens, ps, |ps|, lens, dists)
    ensures AllWritable(ps, lens, dists) && tokens == TokensOf(ps, lens, dists)
  {
    hide TokenOf;
    hide AllWritable;
  }

  lemma BlockParts(ps: seq<Piece>, i: nat, lens: seq<int>, dists: seq<int>, st: Stream, rest: Stream)
    requires BlockComes(ps, i, lens, dists, st, rest)
    ensures i <= |ps| && AllWritable(ps, lens, dists)
  {
    hide AllWritable;
  }

  lemma NoneCoded()
    ensures Coded([])
  {
  }

  lemma MoreCoded(ts: seq<Token>, t: Token)
    requires Coded(ts) && InRange(t)
    ensures Coded(ts + [t])
  {
  }

  /** What has been read: piece by piece, mids being what was ahead before each and now. */
  ghost predicate Reading(qs: seq<Piece>, mids: seq<Stream>, tokens: seq<Token>, lens: seq<int>, dists: seq<int>) {
    |mids| == |qs| + 1 && |tokens| == |qs| &&
    forall i, j :: 0 <= i && j == i + 1 < |mids| ==> ReadAt(qs[i], mids[i], mids[j], tokens[i], lens, dists)
  }

  ghost predicate ReadAt(q: Piece, st: Stream, st': Stream, t: Token, lens: seq<int>, dists: seq<int>) {
    PieceComes(q, lens, dists, st, st') && t == TokenOf(q)
  }

  lemma ReadingNone(st: Stream, lens: seq<int>, dists: seq<int>)
    ensures Reading([], [st], [], lens, dists)
  {
  }

  lemma ReadingMore(qs: seq<Piece>, mids: seq<Stream>, tokens: seq<Token>, lens: seq<int>, dists: seq<int>, q: Piece,
      st: Stream, t: Token)
    requires Reading(qs, mids, tokens, lens, dists) && (q.Match? ==> 257 <= q.ls <= 285 && q.ds < 30) &&
      PieceComes(q, lens, dists, mids[|qs|], st) && t == TokenOf(q)
    ensures Reading(qs + [q], mids + [st], tokens + [t], lens, dists)
  {
    hide PieceComes;
    hide TokenOf;
    var qs', mids', tokens' := qs + [q], mids + [st], tokens + [t];
    forall i, j | 0 <= i && j == i + 1 < |mids'| ensures ReadAt(qs'[i], mids'[i], mids'[j], tokens'[i], lens, dists) {
      if j < |mids| { assert ReadAt(qs[i], mids[i], mids[j], tokens[i], lens, dists); }
    }
  }

  lemma {:induction false} ReadingBack(qs: seq<Piece>, mids: seq<Stream>, tokens: seq<Token>, lens: seq<int>,
      dists: seq<int>, i: nat, rest: Stream)
    requires Reading(qs, mids, tokens, lens, dists) && EndComes(lens, mids[|qs|], rest) && i <= |qs|
    requires AllWritable(qs, lens, dists)
    ensures BlockComes(qs, i, lens, dists, mids[i], rest)
    decreases |qs| - i
  {
    hide PieceThen;
    hide CodeThen;
    hide Coded1;
    hide Writable;
    hide TokenOf;
    if i < |qs| {
      ReadingBack(qs, mids, tokens, lens, dists, i + 1, rest);
      assert ReadAt(qs[i], mids[i], mids[i + 1], tokens[i], lens, dists);
    }
  }

  /** With the end of block code, it is a block. */
  lemma ReadingAll(qs: seq<Piece>, mids: seq<Stream>, tokens: seq<Token>, lens: seq<int>, dists: seq<int>, rest: Stream)
    requires Reading(qs, mids, tokens, lens, dists) && EndComes(lens, mids[|qs|], rest)
    ensures AllWritable(qs, lens, dists) && BlockComes(qs, 0, lens, dists, mids[0], rest) &&
      tokens == TokensOf(qs, lens, dists)
  {
    hide PieceThen;
    hide CodeThen;
    hide Coded1;
    hide BlockComes;
    forall i | 0 <= i < |qs| ensures Writable(qs[i], lens, dists) {
      assert ReadAt(qs[i], mids[i], mids[i + 1], tokens[i], lens, dists);
    }
    ReadingBack(qs, mids, tokens, lens, dists, 0, rest);
    forall i | 0 <= i < |qs| ensures tokens[i] == TokensOf(qs, lens, dists)[i] {
      assert ReadAt(qs[i], mids[i], mids[i + 1], tokens[i], lens, dists);
    }
  }

  /** The tokens of a block. On the bits of a block they are its own, and what follows it is left; and what is taken
      for a block is one. Otherwise the pieces read so far end where the stream is cut short or faulty. */
  method ReadBlock(src: BitSource, codes: array<Entry>, next: nat, lenbits: nat, distbits: nat, ghost lens: seq<int>,
      ghost used: nat,
                   ghost dists: seq<int>, ghost used': nat, ghost ps: seq<Piece>, ghost rest: Stream)
    returns (st: Status, tokens: seq<Token>, ghost qs: seq<Piece>, ghost mids: seq<Stream>)
    requires src.Valid() && Built2(codes, next, lens, lenbits, used, dists, distbits, used')
    modifies src
    ensures src.Valid() && !st.Fine? && Coded(tokens)
    ensures st.BlockEnd? ==>
      BlockComes(qs, 0, lens, dists, old(src.Ahead()), src.Ahead()) && AllWritable(qs, lens, dists) &&
      tokens == TokensOf(qs, lens, dists)
    ensures Reading(qs, mids, tokens, lens, dists) && mids[0] == old(src.Ahead())
    ensures st.Short? ==> CutShort(lens, dists, mids[|qs|])
    ensures st.Bad? ==> Faulty(lens, dists, mids[|qs|])
    ensures old(BlockComes(ps, 0, lens, dists, src.Ahead(), rest)) ==>
      st.BlockEnd? && AllWritable(ps, lens, dists) && tokens == TokensOf(ps, lens, dists) && src.Ahead() == rest
  {
    hide *;
    ghost var good := BlockComes(ps, 0, lens, dists, src.Ahead(), rest);
    tokens, qs := [], [];
    NoneCoded();
    mids := [src.Ahead()];
    ReadingNone(src.Ahead(), lens, dists);
    ghost var i := 0;
    if good {
      BlockParts(ps, 0, lens, dists, src.Ahead(), rest);
      GotNone(ps, lens, dists);
    }
    while true
      invariant src.Valid() && Coded(tokens) &&
        (good ==> BlockComes(ps, i, lens, dists, src.Ahead(), rest) && Got(tokens, ps, i, lens, dists))
      invariant Reading(qs, mids, tokens, lens, dists) && |mids| == |qs| + 1 && mids[0] == old(src.Ahead()) &&
        mids[|qs|] == src.Ahead()
      decreases src.Ahead().n
    {
      ghost var last, p, after := true, Lit(0), rest;
      if good {
        BlockParts(ps, i, lens, dists, src.Ahead(), rest);
        BlockNext(ps, i, lens, dists, src.Ahead(), rest);
        if i < |ps| {
          last, p, after := false, ps[i], BlockThen(ps, i + 1, lens, dists, rest);
          GotNext(tokens, ps, i, lens, dists);
        } else {
          GotAll(tokens, ps, lens, dists);
        }
      }
      var t;
      ghost var q;
      st, t, q := ReadToken(src, codes, next, lenbits, distbits, lens, used, dists, used', last, p, after);
      if !st.Fine? {
        if st.BlockEnd? { ReadingAll(qs, mids, tokens, lens, dists, src.Ahead()); }
        return;
      }
      MoreCoded(tokens, t);
      ReadingMore(qs, mids, tokens, lens, dists, q, src.Ahead(), t);
      qs, mids := qs + [q], mids + [src.Ahead()];
      tokens := tokens + [t];
      i := i + 1;
    }
  }

  /* ---------- with the tables ---------- */

  /** What inflate_table says, as what reading needs. */
  lemma BuiltIntro(t: seq<Entry>, typ: CodeType, lens: seq<int>, root: nat, used: nat)
    requires AllLens(lens, typ)
    requires Total(lens) == 0 ==> root == 1 && used == 2 && 2 <= |t| && t[0] == Invalid(1) && t[1] == Invalid(1)
    requires Total(lens) > 0 ==>
      !Refused(lens, typ) && Decodes(t, typ, lens, root, used) && Pow2(root) <= used <= |t| && 1 <= root <= 15
    requires Total(lens) > 0 && InflateTable.Taken(lens) < Pow2(MAXBITS) ==> root == 1 && 2 <= |t| && t[1] == Invalid(1)
    ensures Built(t, typ, lens, root, used)
  {
    hide Total;
    hide Decodes;
    hide InflateTable.Taken;
    hide AllLens;
    assert Pow2(1) == 2;
  }

  /** Slots beyond those used do not matter. */
  lemma BuiltKept(t: seq<Entry>, t': seq<Entry>, typ: CodeType, lens: seq<int>, root: nat, used: nat)
    requires Built(t, typ, lens, root, used) && |t'| == |t| && t'[..used] == t[..used]
    ensures Built(t', typ, lens, root, used)
  {
    hide Pow2;
    hide Total;
    hide Found;
    hide InflateTable.Taken;
    PowerAtLeast(root);
    assert t[..used][1] == t[1] && t'[..used][1] == t'[1] && t[..used][0] == t[0] && t'[..used][0] == t'[0];
    if Total(lens) > 0 {
      forall k | 0 <= k < Total(lens) ensures Found(t', typ, lens, root, used, k) {
        assert Found(t, typ, lens, root, used, k);
        FoundKept(t, t', typ, lens, root, used, k);
      }
    }
  }

  lemma PowerAtLeast(root: nat)
    requires root >= 1
    ensures Pow2(root) >= 2
  {
  }

  lemma FoundKept(t: seq<Entry>, t': seq<Entry>, typ: CodeType, lens: seq<int>, root: nat, used: nat, k: nat)
    requires k < Total(lens) && AllLens(lens, typ) && Found(t, typ, lens, root, used, k)
    requires Pow2(root) <= used <= |t| && |t'| == |t| && t'[..used] == t[..used]
    ensures Found(t', typ, lens, root, used, k)
  {
    hide Total;
    hide Size;
    hide Huff;
    hide Leaf;
    hide Pow2;
    hide Filled;
    var n, h := Size(lens, k), Huff(lens, k);
    if n <= root {
      FilledKept(t, t', 0, Pow2(root), n, h, Leaf(lens, typ, k, n), used);
    } else {
      var x := Low(h, root);
      ModOf(h, root);
      assert t[..used][x] == t[x] && t'[..used][x] == t'[x];
      FilledKept(t, t', t[x].val, Pow2(t[x].op), n - root, High(h, root), Leaf(lens, typ, k, n - root), used);
    }
  }

  lemma FilledKept(t: seq<Entry>, t': seq<Entry>, base: nat, size: nat, n: nat, h: nat, e: Entry, used: nat)
    requires Filled(t, base, size, n, h, e) && base + size <= used <= |t| && |t'| == |t| && t'[..used] == t[..used]
    ensures Filled(t', base, size, n, h, e)
  {
    hide Low;
    forall z | base <= z < base + size && Low(z - base, n) == h ensures t'[z] == e {
      assert t[..used][z] == t[z] && t'[..used][z] == t'[z];
    }
  }

  lemma Rooms(lens: seq<int>, dists: seq<int>)
    requires AllLens(lens, LENS) && AllLens(dists, DISTS)
    ensures Room(LENS) == 852 && Room(DISTS) == 592 && ENOUGH_LENS == 852 && ENOUGH_DISTS == 592
    ensures |lens| <= 288 && |dists| <= 32
  {
  }

  lemma Built2Intro(codes: array<Entry>, next: nat, lens: seq<int>, lenbits: nat, used: nat, dists: seq<int>,
      distbits: nat, used': nat)
    requires next <= codes.Length && Built(codes[0..], LENS, lens, lenbits, used) &&
      Built(codes[next..], DISTS, dists, distbits, used')
    ensures Built2(codes, next, lens, lenbits, used, dists, distbits, used')
  {
    hide Built;
  }

  /** What making one table comes to: refused, too large, or made. */
  ghost function OutcomeFor(lens: seq<int>, typ: CodeType, bits: nat): int {
    if Total(lens) > 0 && Refused(lens, typ) then -1 else if Oversized(lens, typ, bits) then 1 else 0
  }

  /** And both. */
  ghost function OutcomeOf(lens: seq<int>, dists: seq<int>): int {
    if OutcomeFor(lens, LENS, 9) != 0 then OutcomeFor(lens, LENS, 9) else OutcomeFor(dists, DISTS, 6)
  }

  lemma OutcomesAre(lens: seq<int>, dists: seq<int>)
    ensures OutcomeFor(lens, LENS, 9) ==
      if Total(lens) > 0 && Refused(lens, LENS) then -1 else if Oversized(lens, LENS, 9) then 1 else 0
    ensures OutcomeFor(dists, DISTS, 6) ==
      if Total(dists) > 0 && Refused(dists, DISTS) then -1 else if Oversized(dists, DISTS, 6) then 1 else 0
    ensures OutcomeOf(lens, dists) ==
      if OutcomeFor(lens, LENS, 9) != 0 then OutcomeFor(lens, LENS, 9) else OutcomeFor(dists, DISTS, 6)
    ensures Total(lens) == 0 ==> !Oversized(lens, LENS, 9)
    ensures Total(dists) == 0 ==> !Oversized(dists, DISTS, 6)
  {
    hide Total;
    hide Refused;
    hide RootIs;
    hide NeedsMore;
  }

  /** Both tables of a block with dynamic codes, one after the other in one array. */
  method MakeTables(lens: seq<int>, dists: seq<int>, codes: array<Entry>, work: array<int>)
    returns (ret: int, next: nat, lenbits: nat, distbits: nat, ghost used: nat, ghost used': nat)
    requires AllLens(lens, LENS) && AllLens(dists, DISTS) && codes.Length == ENOUGH_LENS + ENOUGH_DISTS &&
      work.Length == 288
    modifies codes, work
    ensures ret == 0 ==> Built2(codes, next, lens, lenbits, used, dists, distbits, used')
    ensures ret == OutcomeOf(lens, dists)
  {
    hide *;
    Rooms(lens, dists);
    OutcomesAre(lens, dists);
    next, lenbits, distbits, used, used' := 0, 0, 0, 0, 0;
    var n;
    ret, lenbits, n := InflateTable.InflateTable(LENS, lens, codes, 0, 9, work);
    if ret != 0 { return; }
    BuiltIntro(codes[0..], LENS, lens, lenbits, n);
    ghost var t := codes[0..];
    BuiltParts(t, LENS, lens, lenbits, n);
    next, used := n, n;
    ret, distbits, n := InflateTable.InflateTable(DISTS, dists, codes, next, 6, work);
    if ret != 0 { return; }
    used' := n;
    BuiltIntro(codes[next..], DISTS, dists, distbits, used');
    assert codes[0..][..used] == codes[..next] && t[..used] == t[..next];
    BuiltKept(t, codes[0..], LENS, lens, lenbits, used);
    Built2Intro(codes, next, lens, lenbits, used, dists, distbits, used');
  }

  /** With the tables in place, the bits of a block are read as the tokens they were written from, and
      these are turned into the data they tell, in a window that reaches back far enough. */
  method Inflated(bytes: seq<int>, codes: array<Entry>, next: nat, lenbits: nat, distbits: nat, wbits: nat, room: nat,
      enough: nat,
                  ghost lens: seq<int>, ghost used: nat, ghost dists: seq<int>, ghost used': nat, ghost ps: seq<Piece>,
                  ghost rest: Stream, ghost data: seq<int>, ghost reach: nat)
    returns (st: Status, out: array<int>, n: nat)
    requires AreBytes(bytes) && 8 <= wbits <= 15 && Built2(codes, next, lens, lenbits, used, dists, distbits, used')
    requires BlockComes(ps, 0, lens, dists, Stream(LittleEnd(bytes), 8 * |bytes|), rest)
    requires Tells(data, TokensOf(ps, lens, dists), |data|, reach) && reach <= Pow2(wbits) && |data| < room
    ensures st.BlockEnd? && n <= out.Length && out[..n] == data
  {
    hide *;
    var src := new BitSource(bytes);
    var tokens;
    ghost var qs, mids;
    st, tokens, qs, mids := ReadBlock(src, codes, next, lenbits, distbits, lens, used, dists, used', ps, rest);
    out, n := DeflateInflate.InflateAll(tokens, data, room, reach, wbits, enough);
  }

  /* ---------- every token can be written ---------- */

  /** The symbol for a length, looked for from the last one down. */
  lemma {:induction false} LengthSymbol(len: int, m: nat) returns (ls: nat)
    requires 257 <= m <= 284 && 3 <= len < LengthBase(m) + Pow2(LengthExtra(m))
    ensures 257 <= ls <= m && LengthBase(ls) <= len < LengthBase(ls) + Pow2(LengthExtra(ls))
    decreases m
  {
    hide *;
    LengthsCovered(257);
    if LengthBase(m) <= len {
      ls := m;
    } else {
      LengthsCovered(m - 1);
      ls := LengthSymbol(len, m - 1);
    }
  }

  lemma {:induction false} DistanceSymbol(dist: int, m: nat) returns (ds: nat)
    requires m < 30 && 1 <= dist < DistBase(m) + Pow2(DistExtra(m))
    ensures ds <= m && DistBase(ds) <= dist < DistBase(ds) + Pow2(DistExtra(ds))
    decreases m
  {
    hide *;
    DistancesCovered(0);
    if DistBase(m) <= dist {
      ds := m;
    } else {
      DistancesCovered(m - 1);
      ds := DistanceSymbol(dist, m - 1);
    }
  }

  /** Whatever the codes, a token that inflate can play is written as some piece, if its symbols have codes. */
  lemma PieceFor(t: Token) returns (p: Piece)
    requires InRange(t)
    ensures t.Literal? ==> p == Lit(t.b)
    ensures t.Copy? ==>
      p.Match? && 257 <= p.ls <= 285 && p.ds < 30 && p.lx < Pow2(LengthExtra(p.ls)) && p.dx < Pow2(DistExtra(p.ds))
    ensures (p.Match? ==> 257 <= p.ls <= 285 && p.ds < 30) && TokenOf(p) == t
  {
    hide Pow2;
    hide LengthBase;
    hide LengthExtra;
    hide DistBase;
    hide DistExtra;
    match t
    case Literal(b) => p := Lit(b);
    case Copy(len, dist) =>
      LengthsCovered(257);
      DistancesCovered(0);
      var ls := LengthSymbol(len, 284);
      var ds := DistanceSymbol(dist, 29);
      p := Match(ls, len - LengthBase(ls), ds, dist - DistBase(ds));
  }

  /** A match of 258 bytes has two forms: the last length symbol, without extra bits, and the one before it with
      all of them set. */
  lemma LongestForms(p: Piece)
    requires p.Match? && 257 <= p.ls <= 285 && p.ds < 30 && p.lx < Pow2(LengthExtra(p.ls))
    ensures TokenOf(p).len == 258 <==> (p.ls == 285 && p.lx == 0) || (p.ls == 284 && p.lx == 31)
    ensures p.ls == 285 ==> TokenOf(p).len == 258
  {
    hide Pow2;
    SmallPowers();
  }
}
