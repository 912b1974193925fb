/** The bits of a compressed block, as sendMTFValues writes them and BZ2_decompress expects them.
    Each function gives the bits of one part followed by k, the bits that come after it. */
module BlockFormat {
  import opened Bits
  import opened BitIO
  import opened CanonicalCode

  const G_SIZE := 50
  const MAX_SELECTORS := 2 + 900_000 / G_SIZE

  /** n bits of v. */
  ghost function Put(v: nat, n: nat, k: seq<int>): (s: seq<int>) {
    BitsOf(v, n) + k
  }

  /* ---------- the bytes in use ---------- */

  /** Is one of the sixteen bytes from 16 * i in use? */
  ghost predicate GroupUsed(inUse: seq<bool>, i: nat)
    requires |inUse| == 256 && i < 16
  {
    exists c :: 16 * i <= c < 16 * i + 16 && inUse[c]
  }

  ghost function Flags(inUse: seq<bool>, i: nat, k: seq<int>): (s: seq<int>)
    requires |inUse| == 256 && i <= 16
    decreases 16 - i
  {
    if i == 16 then k else Put(if GroupUsed(inUse, i) then 1 else 0, 1, Flags(inUse, i + 1, k))
  }

  /** The bytes from c up to e, one bit each. */
  ghost function Members(inUse: seq<bool>, c: nat, e: nat, k: seq<int>): (s: seq<int>)
    requires c <= e <= |inUse|
    decreases e - c
  {
    if c == e then k else Put(if inUse[c] then 1 else 0, 1, Members(inUse, c + 1, e, k))
  }

  ghost function Details(inUse: seq<bool>, i: nat, k: seq<int>): (s: seq<int>)
    requires |inUse| == 256 && i <= 16
    decreases 16 - i
  {
    if i == 16 then k
    else if GroupUsed(inUse, i) then Members(inUse, 16 * i, 16 * i + 16, Details(inUse, i + 1, k))
    else Details(inUse, i + 1, k)
  }

  ghost function MapBits(inUse: seq<bool>, k: seq<int>): (s: seq<int>)
    requires |inUse| == 256
  {
    Flags(inUse, 0, Details(inUse, 0, k))
  }

  /* ---------- the selectors ---------- */

  ghost function Unary(j: nat, k: seq<int>): (s: seq<int>) {
    if j == 0 then Put(0, 1, k) else Put(1, 1, Unary(j - 1, k))
  }

  /** The selectors from i on, each by its move-to-front number. */
  ghost function Selectors(codes: seq<nat>, i: nat, k: seq<int>): (s: seq<int>)
    requires i <= |codes|
    decreases |codes| - i
  {
    if i == |codes| then k else Unary(codes[i], Selectors(codes, i + 1, k))
  }

  /* ---------- the coding tables ---------- */

  /** From length c to length l, one up (10) or down (11) at a time; then a 0. */
  ghost function Steps(c: int, l: int, k: seq<int>): (s: seq<int>)
    decreases if c < l then l - c else c - l
  {
    if c < l then Put(2, 2, Steps(c + 1, l, k))
    else if c > l then Put(3, 2, Steps(c - 1, l, k))
    else Put(0, 1, k)
  }

  ghost function Deltas(lens: seq<int>, c: int, i: nat, k: seq<int>): (s: seq<int>)
    requires i <= |lens|
    decreases |lens| - i
  {
    if i == |lens| then k else Steps(c, lens[i], Deltas(lens, lens[i], i + 1, k))
  }

  ghost function Table(lens: seq<int>, k: seq<int>): (s: seq<int>)
    requires |lens| > 0 && LensOk(lens)
  {
    Put(lens[0], 5, Deltas(lens, lens[0], 0, k))
  }

  ghost predicate Lens(tables: seq<seq<int>>, alphaSize: nat) {
    alphaSize > 0 && forall t {:trigger tables[t]} ::
    0 <= t < |tables| ==> |tables[t]| == alphaSize && LensOk(tables[t])
  }

  ghost predicate LensOk(lens: seq<int>) {
    forall i :: 0 <= i < |lens| ==> 1 <= lens[i] <= 20
  }

  ghost function Tables(tables: seq<seq<int>>, alphaSize: nat, t: nat, k: seq<int>): (s: seq<int>)
    requires t <= |tables| && Lens(tables, alphaSize)
    decreases |tables| - t
  {
    if t == |tables| then k else Table(tables[t], Tables(tables, alphaSize, t + 1, k))
  }

  /* ---------- the symbols ---------- */

  /** A coded block: bytes in use, the table for every fifty symbols, the tables, the symbols. */
  datatype Coded = Coded(inUse: seq<bool>, selectors: seq<nat>, tables: seq<seq<int>>, syms: seq<int>)

  ghost predicate Sound(c: Coded, alphaSize: nat) {
    |c.inUse| == 256 && 2 <= |c.tables| <= 6 && 2 <= alphaSize <= 258 && Lens(c.tables, alphaSize) &&
    (forall t {:trigger c.tables[t]} :: 0 <= t < |c.tables| ==> Kraft(c.tables[t], 20)) &&
    1 <= |c.selectors| <= MAX_SELECTORS && (forall i :: 0 <= i < |c.selectors| ==> c.selectors[i] < |c.tables|) &&
    |c.selectors| == (|c.syms| + 49) / 50 && (forall i :: 0 <= i < |c.syms| ==> 0 <= c.syms[i] < alphaSize)
  }

  /** The lengths of the table in force for symbol i. */
  ghost function InForce(c: Coded, alphaSize: nat, i: nat): (lens: seq<int>)
    requires Sound(c, alphaSize) && i < |c.syms|
    ensures |lens| == alphaSize && LensOk(lens) && Kraft(lens, 20)
  {
    c.tables[c.selectors[i / 50]]
  }

  ghost function Data(c: Coded, alphaSize: nat, i: nat, k: seq<int>): (s: seq<int>)
    requires Sound(c, alphaSize) && i <= |c.syms|
    decreases |c.syms| - i
  {
    if i == |c.syms| then k else CodeBits(InForce(c, alphaSize, i), c.syms[i]) + Data(c, alphaSize, i + 1, k)
  }

  /** Everything sendMTFValues writes. */
  ghost function Body(c: Coded, codes: seq<nat>, alphaSize: nat, k: seq<int>): (s: seq<int>)
    requires Sound(c, alphaSize) && |codes| == |c.selectors|
  {
    MapBits(c.inUse,
    Put(|c.tables|, 3, Put(|codes|, 15, Selectors(codes, 0, Tables(c.tables, alphaSize, 0, Data(c, alphaSize, 0, k))))))
  }

  /** Signature, checksum, the bit that says "not randomised", the row of the original among the
      rotations. */
  ghost function Header(crc: nat, origPtr: nat, k: seq<int>): (s: seq<int>) {
    Put(0x31, 8,
    Put(0x41, 8, Put(0x59, 8, Put(0x26, 8, Put(0x53, 8, Put(0x59, 8, Word(crc, Put(0, 1, Put(origPtr, 24, k)))))))))
  }

  /** Four bytes, most significant first. */
  ghost function Word(u: nat, k: seq<int>): (s: seq<int>) {
    Put(u / 0x100_0000 % 256, 8, Put(u / 0x1_0000 % 256, 8, Put(u / 256 % 256, 8, Put(u % 256, 8, k))))
  }

  /** A whole block. */
  ghost function Block(crc: nat, origPtr: nat, c: Coded, codes: seq<nat>, alphaSize: nat, k: seq<int>): (s: seq<int>)
    requires Sound(c, alphaSize) && |codes| == |c.selectors|
  {
    Header(crc, origPtr, Body(c, codes, alphaSize, k))
  }

  /* ---------- what follows a part is just appended to it ---------- */

  lemma PutAppend(v: nat, n: nat, j: seq<int>, k: seq<int>)
    ensures Put(v, n, j) + k == Put(v, n, j + k)
  {
    assert BitsOf(v, n) + j + k == BitsOf(v, n) + (j + k);
  }

  lemma {:induction false} MembersAppend(inUse: seq<bool>, c: nat, e: nat, j: seq<int>, k: seq<int>)
    requires c <= e <= |inUse|
    ensures Members(inUse, c, e, j) + k == Members(inUse, c, e, j + k)
    decreases e - c
  {
    hide Put;
    if c < e {
      MembersAppend(inUse, c + 1, e, j, k);
      PutAppend(if inUse[c] then 1 else 0, 1, Members(inUse, c + 1, e, j), k);
    }
  }

  lemma {:induction false} DetailsAppend(inUse: seq<bool>, i: nat, j: seq<int>, k: seq<int>)
    requires |inUse| == 256 && i <= 16
    ensures Details(inUse, i, j) + k == Details(inUse, i, j + k)
    decreases 16 - i
  {
    hide Members;
    if i < 16 {
      DetailsAppend(inUse, i + 1, j, k);
      MembersAppend(inUse, 16 * i, 16 * i + 16, Details(inUse, i + 1, j), k);
    }
  }

  lemma {:induction false} FlagsAppend(inUse: seq<bool>, i: nat, j: seq<int>, k: seq<int>)
    requires |inUse| == 256 && i <= 16
    ensures Flags(inUse, i, j) + k == Flags(inUse, i, j + k)
    decreases 16 - i
  {
    hide Put;
    if i < 16 {
      FlagsAppend(inUse, i + 1, j, k);
      PutAppend(if GroupUsed(inUse, i) then 1 else 0, 1, Flags(inUse, i + 1, j), k);
    }
  }

  lemma {:induction false} UnaryAppend(n: nat, j: seq<int>, k: seq<int>)
    ensures Unary(n, j) + k == Unary(n, j + k)
    decreases n
  {
    hide Put;
    if n == 0 {
      PutAppend(0, 1, j, k);
    } else {
      UnaryAppend(n - 1, j, k);
      PutAppend(1, 1, Unary(n - 1, j), k);
    }
  }

  lemma {:induction false} SelectorsAppend(codes: seq<nat>, i: nat, j: seq<int>, k: seq<int>)
    requires i <= |codes|
    ensures Selectors(codes, i, j) + k == Selectors(codes, i, j + k)
    decreases |codes| - i
  {
    if i < |codes| {
      SelectorsAppend(codes, i + 1, j, k);
      UnaryAppend(codes[i], Selectors(codes, i + 1, j), k);
    }
  }

  lemma {:induction false} StepsAppend(c: int, l: int, j: seq<int>, k: seq<int>)
    ensures Steps(c, l, j) + k == Steps(c, l, j + k)
    decreases if c < l then l - c else c - l
  {
    hide Put;
    if c < l {
      StepsAppend(c + 1, l, j, k);
      PutAppend(2, 2, Steps(c + 1, l, j), k);
    } else if c > l {
      StepsAppend(c - 1, l, j, k);
      PutAppend(3, 2, Steps(c - 1, l, j), k);
    } else {
      PutAppend(0, 1, j, k);
    }
  }

  lemma {:induction false} DeltasAppend(lens: seq<int>, c: int, i: nat, j: seq<int>, k: seq<int>)
    requires i <= |lens|
    ensures Deltas(lens, c, i, j) + k == Deltas(lens, c, i, j + k)
    decreases |lens| - i
  {
    hide Steps;
    if i < |lens| {
      DeltasAppend(lens, lens[i], i + 1, j, k);
      StepsAppend(c, lens[i], Deltas(lens, lens[i], i + 1, j), k);
    }
  }

  lemma {:induction false} TablesAppend(tables: seq<seq<int>>, alphaSize: nat, t: nat, j: seq<int>, k: seq<int>)
    requires t <= |tables| && Lens(tables, alphaSize)
    ensures Tables(tables, alphaSize, t, j) + k == Tables(tables, alphaSize, t, j + k)
    decreases |tables| - t
  {
    hide Put;
    hide Deltas;
    if t < |tables| {
      var lens, next := tables[t], Tables(tables, alphaSize, t + 1, j);
      TablesAppend(tables, alphaSize, t + 1, j, k);
      DeltasAppend(lens, lens[0], 0, next, k);
      PutAppend(lens[0], 5, Deltas(lens, lens[0], 0, next), k);
    }
  }

  lemma {:induction false} DataAppend(c: Coded, alphaSize: nat, i: nat, j: seq<int>, k: seq<int>)
    requires Sound(c, alphaSize) && i <= |c.syms|
    ensures Data(c, alphaSize, i, j) + k == Data(c, alphaSize, i, j + k)
    decreases |c.syms| - i
  {
    hide Sound;
    hide CodeBits;
    hide InForce;
    if i < |c.syms| {
      DataAppend(c, alphaSize, i + 1, j, k);
      var bits := CodeAt(c, alphaSize, i);
      assert bits + Data(c, alphaSize, i + 1, j) + k == bits + (Data(c, alphaSize, i + 1, j) + k);
    }
  }

  ghost function CodeAt(c: Coded, alphaSize: nat, i: nat): (bits: seq<int>)
    requires Sound(c, alphaSize) && i < |c.syms|
    ensures forall k :: Data(c, alphaSize, i, k) == bits + Data(c, alphaSize, i + 1, k)
  {
    CodeBits(InForce(c, alphaSize, i), c.syms[i])
  }

  lemma BodyAppend(c: Coded, codes: seq<nat>, alphaSize: nat, k: seq<int>)
    requires Sound(c, alphaSize) && |codes| == |c.selectors|
    ensures Body(c, codes, alphaSize, []) + k == Body(c, codes, alphaSize, k)
  {
    hide Put;
    hide Flags;
    hide Details;
    hide Selectors;
    hide Tables;
    hide Data;
    assert [] + k == k;
    DataAppend(c, alphaSize, 0, [], k);
    var d := Data(c, alphaSize, 0, []);
    TablesAppend(c.tables, alphaSize, 0, d, k);
    var t := Tables(c.tables, alphaSize, 0, d);
    SelectorsAppend(codes, 0, t, k);
    var s := Selectors(codes, 0, t);
    PutAppend(|codes|, 15, s, k);
    PutAppend(|c.tables|, 3, Put(|codes|, 15, s), k);
    var m := Put(|c.tables|, 3, Put(|codes|, 15, s));
    DetailsAppend(c.inUse, 0, m, k);
    FlagsAppend(c.inUse, 0, Details(c.inUse, 0, m), k);
  }

  lemma WordAppend(u: nat, j: seq<int>, k: seq<int>)
    ensures Word(u, j) + k == Word(u, j + k)
  {
    hide Put;
    var b3 := Put(u % 256, 8, j);
    var b2 := Put(u / 256 % 256, 8, b3);
    var b1 := Put(u / 0x1_0000 % 256, 8, b2);
    PutAppend(u % 256, 8, j, k);
    PutAppend(u / 256 % 256, 8, b3, k);
    PutAppend(u / 0x1_0000 % 256, 8, b2, k);
    PutAppend(u / 0x100_0000 % 256, 8, b1, k);
  }

  lemma HeaderAppend(crc: nat, origPtr: nat, j: seq<int>, k: seq<int>)
    ensures Header(crc, origPtr, j) + k == Header(crc, origPtr, j + k)
  {
    hide Put;
    hide Word;
    PutAppend(origPtr, 24, j, k);
    PutAppend(0, 1, Put(origPtr, 24, j), k);
    var w := Word(crc, Put(0, 1, Put(origPtr, 24, j)));
    WordAppend(crc, Put(0, 1, Put(origPtr, 24, j)), k);
    PutAppend(0x59, 8, w, k);
    PutAppend(0x53, 8, Put(0x59, 8, w), k);
    PutAppend(0x26, 8, Put(0x53, 8, Put(0x59, 8, w)), k);
    PutAppend(0x59, 8, Put(0x26, 8, Put(0x53, 8, Put(0x59, 8, w))), k);
    PutAppend(0x41, 8, Put(0x59, 8, Put(0x26, 8, Put(0x53, 8, Put(0x59, 8, w)))), k);
    PutAppend(0x31, 8, Put(0x41, 8, Put(0x59, 8, Put(0x26, 8, Put(0x53, 8, Put(0x59, 8, w))))), k);
  }

  lemma BlockAppend(crc: nat, origPtr: nat, c: Coded, codes: seq<nat>, alphaSize: nat, k: seq<int>)
    requires Sound(c, alphaSize) && |codes| == |c.selectors|
    ensures Block(crc, origPtr, c, codes, alphaSize, []) + k == Block(crc, origPtr, c, codes, alphaSize, k)
    ensures Header(crc, origPtr, []) + Body(c, codes, alphaSize, []) == Block(crc, origPtr, c, codes, alphaSize, [])
  {
    hide Header;
    hide Body;
    BodyAppend(c, codes, alphaSize, k);
    HeaderAppend(crc, origPtr, Body(c, codes, alphaSize, []), k);
    HeaderAppend(crc, origPtr, [], Body(c, codes, alphaSize, []));
    assert [] + Body(c, codes, alphaSize, []) == Body(c, codes, alphaSize, []);
  }

  /* ---------- one item written, one item read ---------- */

  /** What has been written and what is to come make up the whole stream. */
  ghost predicate Sent(written: seq<int>, k: seq<int>, all: seq<int>) {
    written + k == all
  }

  lemma SentMore(written: seq<int>, v: nat, n: nat, k: seq<int>, all: seq<int>)
    requires Sent(written, Put(v, n, k), all)
    ensures Sent(written + BitsOf(v, n), k, all)
  {
    assert written + BitsOf(v, n) + k == written + (BitsOf(v, n) + k);
  }

  /** bsW of the next item of the stream. */
  method PutBits(w: BitWriter, n: int, v: int, ghost k: seq<int>, ghost all: seq<int>)
    requires w.Valid() && 0 <= n <= 24 && 0 <= v < Pow2(n) && Sent(w.Written(), Put(v, n, k), all)
    modifies w`zbits, w`bsBuff, w`bsLive
    ensures w.Valid() && Sent(w.Written(), k, all)
  {
    hide *;
    SentMore(w.Written(), v, n, k, all);
    w.W(n, v);
  }

  lemma Taken(v: nat, n: nat, k: seq<int>, stream: seq<int>)
    requires v < Pow2(n) && stream == Put(v, n, k)
    ensures |stream| >= n && IsBits(stream[..n]) && Value(stream[..n]) == v && stream[n..] == k
  {
    ValueOfBits(v, n);
    assert stream[..n] == BitsOf(v, n);
  }

  lemma {:induction false} ValueBound(s: seq<int>)
    requires IsBits(s)
    ensures Value(s) < Pow2(|s|)
    decreases |s|
  {
    if s != [] { ValueBound(s[..|s| - 1]); }
  }

  lemma PutOfValue(stream: seq<int>, n: nat)
    requires n <= |stream| && IsBits(stream[..n])
    ensures Value(stream[..n]) >= 0 && stream == Put(Value(stream[..n]), n, stream[n..])
  {
    BitsOfValue(stream[..n]);
  }

  /** GET_BITS on any input; if the input is v in n bits and then k, v is read and k is left. */
  method TakeBits(r: BitReader, n: int, ghost v: nat, ghost k: seq<int>) returns (ok: bool, x: int)
    requires r.Valid() && 0 <= n <= 24
    modifies r
    ensures r.Valid() && (ok ==> 0 <= x < Pow2(n) && |r.Remaining()| == |old(r.Remaining())| - n)
    ensures |r.Remaining()| <= |old(r.Remaining())|
    ensures !ok ==> |old(r.Remaining())| < n + |r.more| && r.Spent()
    ensures ok ==> old(r.Remaining()) == Put(x, n, r.Remaining())
    ensures v < Pow2(n) && old(r.Remaining()) == Put(v, n, k) ==>
      (ok || r.more != []) && (ok ==> x == v && r.Remaining() == k)
  {
    ghost var stream := r.Remaining();
    hide BitReader.Remaining;
    hide BitReader.Valid;
    hide Value;
    hide Pow2;
    ok, x := r.GetBits(n);
    if ok {
      ValueBound(stream[..n]);
      PutOfValue(stream, n);
    }
    if v < Pow2(n) && stream == Put(v, n, k) { Taken(v, n, k, stream); }
  }
}
