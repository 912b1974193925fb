/** huffman.c: assigning codes, the limit/base/perm tables, and the decoding loop that uses them. */
module HuffmanTables {
  import opened Counting
  import opened Bits
  import opened BitIO
  import opened CanonicalCode

  const MAX_CODE_LEN := 23
  const MAX_ALPHA_SIZE := 258

  /** All lengths lie in minLen..maxLen, as for a table about to be used. */
  ghost predicate Between(lens: seq<int>, minLen: int, maxLen: int) {
    1 <= minLen <= maxLen <= 20 && |lens| <= 258 && forall i :: 0 <= i < |lens| ==> minLen <= lens[i] <= maxLen
  }

  lemma {:induction false} CountOutside(lens: seq<int>, i: nat, minLen: int, maxLen: int, n: int)
    requires Between(lens, minLen, maxLen) && i <= |lens| && (n < minLen || n > maxLen)
    ensures Count(lens, i, n) == 0
    decreases i
  {
    if i > 0 { CountOutside(lens, i - 1, minLen, maxLen, n); }
  }

  lemma {:induction false} FirstAtMin(lens: seq<int>, minLen: int, maxLen: int, n: nat)
    requires Between(lens, minLen, maxLen) && n <= minLen
    ensures First(lens, n) == 0
    decreases n
  {
    if n > 1 {
      FirstAtMin(lens, minLen, maxLen, n - 1);
      CountOutside(lens, |lens|, minLen, maxLen, n - 1);
    }
  }

  lemma {:induction false} LessAtMin(lens: seq<int>, i: nat, minLen: int, maxLen: int)
    requires Between(lens, minLen, maxLen) && i <= |lens|
    ensures Less(lens, i, minLen) == 0 && Less(lens, i, maxLen + 1) == i
    decreases i
  {
    if i > 0 { LessAtMin(lens, i - 1, minLen, maxLen); }
  }

  /* ---------- assigning codes ---------- */

  /** Codes of lengths below n, and of length n for symbols below i, are assigned. */
  ghost predicate Assigned(lens: seq<int>, code: seq<int>, n: int, i: int) {
    |lens| <= |code| && forall s ::
    0 <= s < |lens| && (0 < lens[s] < n || (lens[s] == n && 0 < n && s < i)) ==> code[s] == Code(lens, s)
  }

  /** BZ2_hbAssignCodes */
  method AssignCodes(code: array<int>, length: array<int>, minLen: int, maxLen: int, alphaSize: int)
    requires code != length && 0 <= alphaSize <= length.Length && alphaSize <= code.Length
    requires Between(length[..alphaSize], minLen, maxLen)
    modifies code
    ensures forall s :: 0 <= s < alphaSize ==> length[s] > 0 && code[s] == Code(length[..alphaSize], s)
  {
    hide Count;
    ghost var lens := length[..alphaSize];
    FirstAtMin(lens, minLen, maxLen, minLen);
    var vec, n := 0, minLen;
    while n <= maxLen
      invariant minLen <= n <= maxLen + 1 && vec == First(lens, n) && length[..alphaSize] == lens
      invariant Assigned(lens, code[..], n, 0)
    {
      CountZero(lens, n);
      var i := 0;
      while i < alphaSize
        invariant 0 <= i <= alphaSize && vec == First(lens, n) + Count(lens, i, n) && length[..alphaSize] == lens
        invariant Assigned(lens, code[..], n, i)
      {
        assert length[i] == lens[i];
        CountNext(lens, i, n);
        if length[i] == n {
          code[i] := vec;
          vec := vec + 1;
        }
        i := i + 1;
      }
      AssignedNext(lens, code[..], n);
      vec := vec * 2;
      n := n + 1;
    }
  }

  lemma CountZero(lens: seq<int>, n: int)
    ensures Count(lens, 0, n) == 0
  {
  }

  lemma CountNext(lens: seq<int>, i: nat, n: int)
    requires i < |lens|
    ensures Count(lens, i + 1, n) == Count(lens, i, n) + (if lens[i] == n then 1 else 0)
  {
  }

  lemma AssignedNext(lens: seq<int>, code: seq<int>, n: int)
    requires Assigned(lens, code, n, |lens|)
    ensures Assigned(lens, code, n + 1, 0)
  {
  }

  /* ---------- decoding tables ---------- */

  /** perm lists the symbols by length, then by number; limit and base turn a code into an index. */
  ghost predicate Tables(lens: seq<int>, limit: seq<int>, base: seq<int>, perm: seq<int>, minLen: int, maxLen: int) {
    |limit| >= 23 && |base| >= 23 && |perm| >= 258 && |lens| > 0 && Between(lens, minLen, maxLen) &&
    (forall n ::
    minLen <= n <= maxLen ==> limit[n] == End(lens, n) - 1 && base[n] == First(lens, n) - Less(lens, |lens|, n)) &&
    (forall n :: maxLen < n < 23 ==> limit[n] == 0) &&
    forall s :: 0 <= s < |lens| ==> 0 <= SlotUp(lens, s) < |perm| && perm[SlotUp(lens, s)] == s
  }

  /** The symbols of lengths below n, and of length n below j, stand in their slots. */
  ghost predicate Listed(lens: seq<int>, perm: seq<int>, n: int, j: int) {
    |lens| <= |perm| && forall s :: 0 <= s < |lens| && (lens[s] < n || (lens[s] == n && s < j)) ==>
      0 <= SlotUp(lens, s) < |perm| && perm[SlotUp(lens, s)] == s
  }

  lemma ListStep(lens: seq<int>, perm: seq<int>, n: int, j: int)
    requires Listed(lens, perm, n, j) && 0 <= j < |lens|
    ensures lens[j] != n ==> Listed(lens, perm, n, j + 1)
    ensures lens[j] == n ==> 0 <= SlotUp(lens, j) < |lens| && Listed(lens, perm[SlotUp(lens, j) := j], n, j + 1)
  {
    hide SlotUp;
    SlotsOwned(lens, j);
    forall s | 0 <= s < |lens| && s != j ensures SlotUp(lens, s) != SlotUp(lens, j) {
      if s < j { SlotsDistinct(lens, s, j); } else { SlotsDistinct(lens, j, s); }
    }
  }

  lemma ListNext(lens: seq<int>, perm: seq<int>, n: int)
    requires Listed(lens, perm, n, |lens|)
    ensures Listed(lens, perm, n + 1, 0)
  {
  }

  method MakePerm(perm: array<int>, length: array<int>, minLen: int, maxLen: int, alphaSize: int)
    requires perm != length && 0 <= alphaSize <= length.Length && alphaSize <= perm.Length
    requires Between(length[..alphaSize], minLen, maxLen)
    modifies perm
    ensures Listed(length[..alphaSize], perm[..], maxLen + 1, 0)
  {
    hide Count;
    hide Less;
    hide Listed;
    ghost var lens := length[..alphaSize];
    LessAtMin(lens, alphaSize, minLen, maxLen);
    ListStart(lens, perm[..], minLen, maxLen);
    var pp, i := 0, minLen;
    while i <= maxLen
      invariant minLen <= i <= maxLen + 1 && pp == Less(lens, alphaSize, i) && length[..alphaSize] == lens
      invariant Listed(lens, perm[..], i, 0)
    {
      CountZero(lens, i);
      LessStep(lens, alphaSize, i);
      var j := 0;
      while j < alphaSize
        invariant 0 <= j <= alphaSize && pp == Less(lens, alphaSize, i) + Count(lens, j, i) &&
          length[..alphaSize] == lens
        invariant Listed(lens, perm[..], i, j)
      {
        assert length[j] == lens[j];
        CountNext(lens, j, i);
        ListStep(lens, perm[..], i, j);
        if length[j] == i {
          perm[pp] := j;
          pp := pp + 1;
        }
        j := j + 1;
      }
      ListNext(lens, perm[..], i);
      i := i + 1;
    }
  }

  lemma ListStart(lens: seq<int>, perm: seq<int>, minLen: int, maxLen: int)
    requires Between(lens, minLen, maxLen) && |lens| <= |perm|
    ensures Listed(lens, perm, minLen, 0)
  {
  }

  /** The counting part of the base table: base[i] symbols are shorter than i. */
  method CountLengths(base: array<int>, length: array<int>, ghost minLen: int, ghost maxLen: int, alphaSize: int)
    requires base != length && 0 <= alphaSize <= length.Length && base.Length >= 23
    requires Between(length[..alphaSize], minLen, maxLen)
    modifies base
    ensures forall n :: 0 <= n < 23 ==> base[n] == Less(length[..alphaSize], alphaSize, n)
  {
    assert MAX_CODE_LEN == 23;
    hide Less;
    hide Count;
    ghost var lens := length[..alphaSize];
    var i := 0;
    while i < MAX_CODE_LEN
      invariant 0 <= i <= 23 && forall n :: 0 <= n < i ==> base[n] == 0
    {
      base[i] := 0;
      i := i + 1;
    }
    CountsZero(lens);
    i := 0;
    while i < alphaSize
      invariant 0 <= i <= alphaSize && length[..alphaSize] == lens
      invariant forall n :: 0 <= n < 23 ==> base[n] == Count(lens, i, n - 1)
    {
      assert length[i] == lens[i];
      CountsNext(lens, i);
      base[length[i] + 1] := base[length[i] + 1] + 1;
      i := i + 1;
    }
    CountOutside(lens, alphaSize, minLen, maxLen, -1);
    LessEnds(lens, alphaSize, 23);
    i := 1;
    while i < MAX_CODE_LEN
      invariant 1 <= i <= 23
      invariant forall n :: 0 <= n < i ==> base[n] == Less(lens, alphaSize, n)
      invariant forall n :: i <= n < 23 ==> base[n] == Count(lens, alphaSize, n - 1)
    {
      LessStep(lens, alphaSize, i - 1);
      base[i] := base[i] + base[i - 1];
      i := i + 1;
    }
  }

  lemma CountsZero(lens: seq<int>)
    ensures forall n :: Count(lens, 0, n) == 0
  {
  }

  lemma CountsNext(lens: seq<int>, i: nat)
    requires i < |lens|
    ensures forall n :: Count(lens, i + 1, n) == Count(lens, i, n) + (if lens[i] == n then 1 else 0)
  {
  }

  method MakeLimits(limit: array<int>, base: array<int>, ghost lens: seq<int>, minLen: int, maxLen: int)
    requires limit != base && limit.Length >= 23 && base.Length >= 23 && Between(lens, minLen, maxLen)
    requires forall n :: 0 <= n < 23 ==> base[n] == Less(lens, |lens|, n)
    modifies limit
    ensures forall n :: minLen <= n <= maxLen ==> limit[n] == End(lens, n) - 1
    ensures forall n :: maxLen < n < 23 ==> limit[n] == 0
  {
    assert MAX_CODE_LEN == 23;
    hide Less;
    hide Count;
    var i := 0;
    while i < MAX_CODE_LEN
      invariant 0 <= i <= 23 && forall n :: 0 <= n < i ==> limit[n] == 0
    {
      limit[i] := 0;
      i := i + 1;
    }
    FirstAtMin(lens, minLen, maxLen, minLen);
    var vec := 0;
    i := minLen;
    while i <= maxLen
      invariant minLen <= i <= maxLen + 1 && vec == First(lens, i)
      invariant forall n :: minLen <= n < i ==> limit[n] == End(lens, n) - 1
      invariant forall n :: maxLen < n < 23 ==> limit[n] == 0
    {
      LessStep(lens, |lens|, i);
      vec := vec + (base[i + 1] - base[i]);
      limit[i] := vec - 1;
      vec := vec * 2;
      i := i + 1;
    }
  }

  method MakeBases(limit: array<int>, base: array<int>, ghost lens: seq<int>, minLen: int, maxLen: int)
    requires limit != base && limit.Length >= 23 && base.Length >= 23 && Between(lens, minLen, maxLen)
    requires forall n :: 0 <= n < 23 ==> base[n] == Less(lens, |lens|, n)
    requires forall n :: minLen <= n <= maxLen ==> limit[n] == End(lens, n) - 1
    modifies base
    ensures forall n :: minLen <= n <= maxLen ==> base[n] == First(lens, n) - Less(lens, |lens|, n)
  {
    hide Less;
    hide Count;
    FirstAtMin(lens, minLen, maxLen, minLen);
    LessAtMin(lens, |lens|, minLen, maxLen);
    var i := minLen + 1;
    while i <= maxLen
      invariant minLen + 1 <= i <= maxLen + 1
      invariant forall n :: minLen <= n < i ==> base[n] == First(lens, n) - Less(lens, |lens|, n)
      invariant forall n :: i <= n < 23 ==> base[n] == Less(lens, |lens|, n)
    {
      assert First(lens, i) == 2 * End(lens, i - 1);
      base[i] := (limit[i - 1] + 1) * 2 - base[i];
      i := i + 1;
    }
  }

  /** BZ2_hbCreateDecodeTables */
  method CreateDecodeTables(limit: array<int>, base: array<int>, perm: array<int>, length: array<int>,
                            minLen: int, maxLen: int, alphaSize: int)
    requires limit != base && limit != perm && limit != length && base != perm && base != length && perm != length
    requires limit.Length >= 23 && base.Length >= 23 && 0 < alphaSize <= length.Length && perm.Length >= 258
    requires Between(length[..alphaSize], minLen, maxLen)
    modifies limit, base, perm
    ensures Tables(length[..alphaSize], limit[..], base[..], perm[..], minLen, maxLen)
  {
    ghost var lens := length[..alphaSize];
    hide Less;
    hide Count;
    hide Listed;
    hide SlotUp;
    MakePerm(perm, length, minLen, maxLen, alphaSize);
    ghost var ps := perm[..];
    assert length[..alphaSize] == lens;
    CountLengths(base, length, minLen, maxLen, alphaSize);
    assert perm[..] == ps;
    MakeLimits(limit, base, lens, minLen, maxLen);
    assert perm[..] == ps;
    MakeBases(limit, base, lens, minLen, maxLen);
    assert perm[..] == ps && length[..alphaSize] == lens;
    ListedAll(lens, ps, minLen, maxLen);
  }

  lemma ListedAll(lens: seq<int>, perm: seq<int>, minLen: int, maxLen: int)
    requires Listed(lens, perm, maxLen + 1, 0) && Between(lens, minLen, maxLen)
    ensures |perm| >= |lens|
    ensures forall s :: 0 <= s < |lens| ==> 0 <= SlotUp(lens, s) < |perm| && perm[SlotUp(lens, s)] == s
  {
  }

  /* ---------- decoding one symbol ---------- */

  datatype Outcome = Symbol(s: int) | DataError | NeedInput

  /** The stream starts with the code of symbol s. */
  ghost predicate Begins(lens: seq<int>, s: int, stream: seq<int>) {
    0 <= s < |lens| && lens[s] > 0 && CodeBits(lens, s) <= stream
  }

  /** zn bits have been taken; no shorter stretch of the stream can be a code. */
  ghost predicate Seeking(lens: seq<int>, stream: seq<int>, zn: nat, zvec: int, remaining: seq<int>) {
    IsBits(stream) && 1 <= zn <= |stream| && zvec == Value(stream[..zn]) && remaining == stream[zn..] &&
    zvec >= First(lens, zn) &&
    forall n {:trigger End(lens, n)} :: 1 <= n < zn ==> Value(stream[..n]) >= End(lens, n)
  }

  lemma SeekStart(lens: seq<int>, stream: seq<int>, minLen: int, maxLen: int)
    requires Between(lens, minLen, maxLen) && IsBits(stream) && minLen <= |stream|
    ensures IsBits(stream[..minLen]) && Reached(lens, stream, minLen, Value(stream[..minLen]), stream[minLen..])
  {
    FirstAtMin(lens, minLen, maxLen, minLen);
    forall n {:trigger End(lens, n)} | 1 <= n < minLen ensures Value(stream[..n]) >= End(lens, n) {
      FirstAtMin(lens, minLen, maxLen, n);
      CountOutside(lens, |lens|, minLen, maxLen, n);
    }
  }

  /** Past the limit: no code of this length either. */
  lemma SeekPast(t: DecodeTable, lens: seq<int>, stream: seq<int>, zn: int, zvec: int, remaining: seq<int>)
    requires TableFor(t, lens) && t.minLen <= zn <= 20
    requires Seeking(lens, stream, zn, zvec, remaining) && zvec > t.limit[zn]
    ensures zvec >= End(lens, zn)
  {
    if zn > t.maxLen { CountOutside(lens, |lens|, t.minLen, t.maxLen, zn); }
  }

  lemma SeekStep(lens: seq<int>, stream: seq<int>, zn: nat, zvec: int, remaining: seq<int>)
    requires Seeking(lens, stream, zn, zvec, remaining) && zvec >= End(lens, zn) && |remaining| >= 1
    ensures IsBits(remaining[..1]) && Seeking(lens, stream, zn + 1, 2 * zvec + Value(remaining[..1]), remaining[1..])
  {
    var c := stream[zn];
    assert remaining[..1] == [c];
    assert Value([c]) == c by { ValueAppend([], c); assert [] + [c] == [c]; }
    assert stream[..zn + 1] == stream[..zn] + [c];
    ValueAppend(stream[..zn], c);
    assert First(lens, zn + 1) == 2 * End(lens, zn);
  }

  /** Every stretch tried so far was past the codes of its length: no code begins the stream. */
  lemma SeekNone(lens: seq<int>, stream: seq<int>, zn: nat, s: int)
    requires Kraft(lens, 20) && IsBits(stream) &&
      (forall n {:trigger End(lens, n)} :: 1 <= n <= zn && n <= |stream| ==> Value(stream[..n]) >= End(lens, n))
    requires zn >= |stream| || zn >= 20
    ensures !Begins(lens, s, stream)
  {
    if Begins(lens, s, stream) { BeginsValue(lens, s, stream); }
  }

  lemma BeginsValue(lens: seq<int>, s: int, stream: seq<int>)
    requires Kraft(lens, 20) && IsBits(stream) && Begins(lens, s, stream)
    ensures 1 <= lens[s] <= |stream| && lens[s] <= 20 && stream[..lens[s]] == CodeBits(lens, s)
    ensures Value(stream[..lens[s]]) == Code(lens, s) < End(lens, lens[s])
  {
    CodeFits(lens, s, 20);
    CodeInRange(lens, s);
  }

  /** Codes longer than all are past everything. */
  lemma FirstBeyond(lens: seq<int>, minLen: int, maxLen: int, n: nat)
    requires Between(lens, minLen, maxLen) && |lens| > 0 && n > maxLen
    ensures First(lens, n) > 0
  {
    FirstAfter(lens, lens[0], n);
    CountPositive(lens, 0);
    MulAtLeast(End(lens, lens[0]), Pow2(n - lens[0]));
  }

  /** Within the limit: the number in hand is the code of the symbol that perm names. */
  lemma SeekFound(t: DecodeTable, lens: seq<int>, stream: seq<int>, zn: int, zvec: int, remaining: seq<int>)
    requires TableFor(t, lens) && t.minLen <= zn <= 20
    requires Seeking(lens, stream, zn, zvec, remaining) && zvec <= t.limit[zn]
    ensures 0 <= zvec - t.base[zn] < 258 && Begins(lens, t.perm[zvec - t.base[zn]], stream)
    ensures remaining == stream[lens[t.perm[zvec - t.base[zn]]]..]
  {
    if zn > t.maxLen { FirstBeyond(lens, t.minLen, t.maxLen, zn); }
    var slot := zvec - t.base[zn];
    var s := SlotSymbol(t, lens, zn, zvec, slot);
    assert t.perm[slot] == s;
    hide *;
    CodeFromValue(lens, s, stream, zn, zvec);
    RestIs(lens, stream, zn, zvec, remaining);
  }

  lemma RestIs(lens: seq<int>, stream: seq<int>, zn: nat, zvec: int, remaining: seq<int>)
    requires Seeking(lens, stream, zn, zvec, remaining)
    ensures zn <= |stream| && remaining == stream[zn..]
  {
  }

  /** The symbol whose code is the number in hand. */
  lemma SlotSymbol(t: DecodeTable, lens: seq<int>, zn: int, zvec: int, slot: int) returns (s: nat)
    requires TableFor(t, lens) && t.minLen <= zn <= t.maxLen && slot == zvec - t.base[zn] &&
      First(lens, zn) <= zvec < End(lens, zn)
    ensures 0 <= slot < |lens| && s < |lens| && lens[s] == zn && Code(lens, s) == zvec && t.perm[slot] == s
  {
    LessStep(lens, |lens|, zn);
    LessMonotone(lens, |lens|, zn + 1, t.maxLen + 1);
    LessAtMin(lens, |lens|, t.minLen, t.maxLen);
    s := SlotUpHits(lens, slot);
    SlotsOwned(lens, s);
    SlotUnique(lens, zn, lens[s], slot);
    assert t.perm[SlotUp(lens, s)] == s;
  }

  lemma CodeFromValue(lens: seq<int>, s: nat, stream: seq<int>, zn: nat, zvec: int)
    requires IsBits(stream) && 1 <= zn <= |stream| && zvec == Value(stream[..zn]) && s < |lens| && lens[s] == zn &&
      Code(lens, s) == zvec
    ensures Begins(lens, s, stream)
  {
    BitsOfValue(stream[..zn]);
  }

  /** The two symbols that begin one stream are the same: no code is a prefix of another. */
  lemma PrefixFree(lens: seq<int>, s: int, t: int, stream: seq<int>)
    requires Kraft(lens, 20) && IsBits(stream) && Begins(lens, s, stream) && Begins(lens, t, stream)
    ensures s == t
  {
    BeginsValue(lens, s, stream);
    BeginsValue(lens, t, stream);
    if lens[s] < lens[t] {
      LongerPast(lens, t, lens[s], stream);
    } else if lens[t] < lens[s] {
      LongerPast(lens, s, lens[t], stream);
    } else {
      if s < t { CountMonotone(lens, s + 1, t, lens[s]); }
      if t < s { CountMonotone(lens, t + 1, s, lens[s]); }
    }
  }

  lemma LongerPast(lens: seq<int>, t: int, n: nat, stream: seq<int>)
    requires Kraft(lens, 20) && IsBits(stream) && Begins(lens, t, stream) && 1 <= n < lens[t]
    ensures Value(stream[..n]) >= End(lens, n)
  {
    PrefixPast(lens, t, n, 20);
    assert CodeBits(lens, t)[..n] == stream[..n];
  }

  /** The limit, base and perm tables of one code, with its least length (and, for reference, the
      greatest). */
  datatype DecodeTable = DecodeTable(limit: seq<int>, base: seq<int>, perm: seq<int>, minLen: int, maxLen: int)

  ghost predicate TableFor(t: DecodeTable, lens: seq<int>) {
    Tables(lens, t.limit, t.base, t.perm, t.minLen, t.maxLen)
  }

  /** The tables for the lengths given; the cells of perm that no code reaches hold anything. */
  method MakeTable(length: array<int>, alphaSize: int) returns (t: DecodeTable)
    requires 0 < alphaSize <= length.Length && alphaSize <= 258 && forall i ::
      0 <= i < alphaSize ==> 1 <= length[i] <= 20
    ensures TableFor(t, length[..alphaSize])
  {
    var limit, base, perm := new int[23], new int[23], new int[258];
    var minLen, maxLen := MinMax(length, alphaSize);
    CreateDecodeTables(limit, base, perm, length, minLen, maxLen, alphaSize);
    t := DecodeTable(limit[..], base[..], perm[..], minLen, maxLen);
  }

  /** Bits are taken until the number in hand is within the limit of its length. */
  method Seek(r: BitReader, t: DecodeTable, ghost lens: seq<int>, ghost stream: seq<int>)
      returns (res: Outcome, zn: int, zvec: int)
    requires TableFor(t, lens) && r.Valid() && r.Remaining() == stream && IsBits(stream)
    modifies r
    ensures r.Valid()
    ensures |r.Remaining()| <= |old(r.Remaining())|
    ensures res.NeedInput? ==> r.Spent()
    ensures res.Symbol? ==>
      t.minLen <= zn <= 20 && zn < |t.limit| && zvec <= t.limit[zn] && Seeking(lens, stream, zn, zvec, r.Remaining())
    ensures !res.Symbol? && Kraft(lens, 20) ==> (res.NeedInput? && r.more != []) || forall s :: !Begins(lens, s, stream)
  {
    hide *;
    TablesFacts(t, lens);
    zn := t.minLen;
    var ok;
    ok, zvec := r.GetBits(zn);
    if !ok {
      IsSpent(r, zn);
      if r.more == [] { ShortStream(lens, stream, t.minLen, t.maxLen); }
      res := NeedInput;
      return;
    }
    SeekStart(lens, stream, t.minLen, t.maxLen);
    res := Symbol(0);
    while true
      invariant r.Valid() && |r.Remaining()| <= |old(r.Remaining())|
      invariant r.Valid() && t.minLen <= zn <= 21
      invariant Reached(lens, stream, zn, zvec, r.Remaining())
      decreases 21 - zn
    {
      if zn > 20 {
        NoneBegins(lens, stream, zn, zvec, r.Remaining());
        res := DataError;
        return;
      }
      ReachedFacts(lens, stream, zn, zvec, r.Remaining());
      if zvec <= t.limit[zn] {
        break;
      }
      SeekPast(t, lens, stream, zn, zvec, r.Remaining());
      ReachedStep(lens, stream, zn, zvec, r.Remaining());
      zn := zn + 1;
      var zj;
      ok, zj := r.GetBits(1);
      if !ok {
        IsSpent(r, 1);
        res := NeedInput;
        return;
      }
      zvec := zvec * 2 + zj;
    }
  }

  /** GET_MTF_VAL's loop, on any input: a symbol is delivered exactly when the input starts with
      its code, and then exactly that code is used up. */
  method Decode(r: BitReader, t: DecodeTable, ghost lens: seq<int>) returns (res: Outcome)
    requires TableFor(t, lens) && r.Valid()
    modifies r
    ensures r.Valid()
    ensures |r.Remaining()| <= |old(r.Remaining())|
    ensures res.NeedInput? ==> r.Spent()
    ensures res.Symbol? ==>
      Begins(lens, res.s, old(r.Remaining())) && r.Remaining() == old(r.Remaining())[lens[res.s]..]
    ensures !res.Symbol? && Kraft(lens, 20) ==>
      (res.NeedInput? && r.more != []) || forall s :: !Begins(lens, s, old(r.Remaining()))
  {
    hide *;
    ghost var stream := r.Remaining();
    RemainingBits(r);
    var zn, zvec;
    TablesFacts(t, lens);
    res, zn, zvec := Seek(r, t, lens, stream);
    if !res.Symbol? { return; }
    SeekFound(t, lens, stream, zn, zvec, r.Remaining());
    if zvec - t.base[zn] < 0 || zvec - t.base[zn] >= MAX_ALPHA_SIZE {
      return DataError;
    }
    res := Symbol(t.perm[zvec - t.base[zn]]);
  }

  /** Lengths below zn are excluded; at most 20 bits are looked at. */
  ghost predicate Reached(lens: seq<int>, stream: seq<int>, zn: nat, zvec: int, remaining: seq<int>) {
    IsBits(stream) && 1 <= zn <= 21 && (zn <= 20 ==> Seeking(lens, stream, zn, zvec, remaining)) &&
    forall n {:trigger End(lens, n)} :: 1 <= n < zn && n <= |stream| ==> Value(stream[..n]) >= End(lens, n)
  }

  lemma ReachedFacts(lens: seq<int>, stream: seq<int>, zn: nat, zvec: int, remaining: seq<int>)
    requires Reached(lens, stream, zn, zvec, remaining) && zn <= 20
    ensures Seeking(lens, stream, zn, zvec, remaining) && 1 <= zn <= |stream| && |remaining| == |stream| - zn
  {
  }

  lemma ReachedStep(lens: seq<int>, stream: seq<int>, zn: nat, zvec: int, remaining: seq<int>)
    requires Reached(lens, stream, zn, zvec, remaining) && zn <= 20 && zvec >= End(lens, zn)
    ensures |remaining| >= 1 ==>
      IsBits(remaining[..1]) && Reached(lens, stream, zn + 1, 2 * zvec + Value(remaining[..1]), remaining[1..])
    ensures |remaining| == 0 && Kraft(lens, 20) ==> forall s :: !Begins(lens, s, stream)
  {
    if |remaining| >= 1 {
      SeekStep(lens, stream, zn, zvec, remaining);
    } else if Kraft(lens, 20) {
      forall s ensures !Begins(lens, s, stream) { SeekNone(lens, stream, zn, s); }
    }
  }

  lemma RemainingBits(r: BitReader)
    requires r.Valid()
    ensures IsBits(r.Remaining())
  {
  }

  lemma ShortStream(lens: seq<int>, stream: seq<int>, minLen: int, maxLen: int)
    requires Between(lens, minLen, maxLen) && |stream| < minLen
    ensures forall s :: !Begins(lens, s, stream)
  {
  }

  lemma NoneBegins(lens: seq<int>, stream: seq<int>, zn: nat, zvec: int, remaining: seq<int>)
    requires Reached(lens, stream, zn, zvec, remaining) && zn > 20
    ensures Kraft(lens, 20) ==> forall s :: !Begins(lens, s, stream)
  {
    if Kraft(lens, 20) {
      forall s ensures !Begins(lens, s, stream) { SeekNone(lens, stream, 20, s); }
    }
  }

  lemma TablesFacts(t: DecodeTable, lens: seq<int>)
    requires TableFor(t, lens)
    ensures |t.limit| >= 23 && |t.base| >= 23 && |t.perm| >= 258 && 1 <= t.minLen <= t.maxLen <= 20 && |lens| <= 258
    ensures Between(lens, t.minLen, t.maxLen) && MAX_ALPHA_SIZE == 258
  {
  }

  /** The least and the greatest length. */
  method MinMax(length: array<int>, alphaSize: int) returns (minLen: int, maxLen: int)
    requires 0 < alphaSize <= length.Length && alphaSize <= 258 && forall i ::
      0 <= i < alphaSize ==> 1 <= length[i] <= 20
    ensures Between(length[..alphaSize], minLen, maxLen)
    ensures (exists i :: 0 <= i < alphaSize && length[i] == minLen) && exists i ::
      0 <= i < alphaSize && length[i] == maxLen
  {
    minLen, maxLen := 32, 0;
    var i := 0;
    while i < alphaSize
      invariant 0 <= i <= alphaSize
      invariant forall k :: 0 <= k < i ==> minLen <= length[k] <= maxLen
      invariant i == 0 ==> minLen == 32 && maxLen == 0
      invariant i > 0 ==> (exists k :: 0 <= k < i && length[k] == minLen) && exists k ::
        0 <= k < i && length[k] == maxLen
    {
      if length[i] > maxLen { maxLen := length[i]; }
      if length[i] < minLen { minLen := length[i]; }
      i := i + 1;
    }
  }
}
