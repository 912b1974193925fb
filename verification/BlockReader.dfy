/** decompress.c, the receiving side. Every method takes any input; what it promises for the
    compressor's bits is stated for a value u and following bits k given as witnesses: if the input is
    the bits of u and then k, u is delivered and k is left. */
module BlockReader {
  import opened Bits
  import opened BitIO
  import opened BlockFormat
  import opened BlockWriter

  datatype Status = Fine | Corrupt | Short

  /* ---------- the mapping table ---------- */

  /** The flags of groups below i have been read. */
  ghost predicate FlagsRead(u: seq<bool>, got: seq<bool>, i: nat, stream: seq<int>, k: seq<int>) {
    |u| == 256 && |got| == 16 && i <= 16 && (forall g :: 0 <= g < i ==> got[g] == GroupUsed(u, g)) &&
    stream == Flags(u, i, k)
  }

  lemma FlagsReadStart(u: seq<bool>, got: seq<bool>, stream: seq<int>, k: seq<int>)
    requires |u| == 256 && |got| == 16 && stream == Flags(u, 0, k)
    ensures FlagsRead(u, got, 0, stream, k)
  {
  }

  lemma FlagsReadStep(u: seq<bool>, got: seq<bool>, i: nat, stream: seq<int>, k: seq<int>)
    requires FlagsRead(u, got, i, stream, k) && i < 16
    ensures |u| == 256 && |got| == 16 && Pow2(1) == 2 &&
      stream == Put(if GroupUsed(u, i) then 1 else 0, 1, Flags(u, i + 1, k))
    ensures FlagsRead(u, got[i := GroupUsed(u, i)], i + 1, Flags(u, i + 1, k), k)
  {
  }

  lemma FlagsReadEnd(u: seq<bool>, got: seq<bool>, stream: seq<int>, k: seq<int>)
    requires FlagsRead(u, got, 16, stream, k)
    ensures GroupsFound(got, u) && stream == k
  {
  }

  method ReadFlags(r: BitReader, ghost u: seq<bool>, ghost k: seq<int>) returns (st: Status, inUse16: array<bool>)
    requires r.Valid() && |u| == 256
    modifies r
    ensures r.Valid() && fresh(inUse16) && inUse16.Length == 16
    ensures st.Short? ==> r.Spent()
    ensures |r.Remaining()| <= |old(r.Remaining())|
    ensures old(r.Remaining()) == Flags(u, 0, k) ==>
      (st.Fine? || (st.Short? && r.more != [])) &&
      (st.Fine? ==> GroupsFound(inUse16[..], u) && r.Remaining() == k)
  {
    hide *;
    inUse16 := new bool[16](_ => false);
    ghost var good := r.Remaining() == Flags(u, 0, k);
    if good { FlagsReadStart(u, inUse16[..], r.Remaining(), k); }
    var i := 0;
    while i < 16
      invariant r.Valid() && |r.Remaining()| <= |old(r.Remaining())|
      invariant 0 <= i <= 16 && r.Valid() && (good ==> FlagsRead(u, inUse16[..], i, r.Remaining(), k))
    {
      if good { FlagsReadStep(u, inUse16[..], i, r.Remaining(), k); }
      var ok, uc := TakeBits(r, 1, if GroupUsed(u, i) then 1 else 0, Flags(u, i + 1, k));
      if !ok { return Short, inUse16; }
      inUse16[i] := uc == 1;
      i := i + 1;
    }
    st := Fine;
    if good { FlagsReadEnd(u, inUse16[..], r.Remaining(), k); }
  }

  /** Bytes below c are known, the others still taken as unused. */
  ghost predicate Known(u: seq<bool>, got: seq<bool>, c: nat) {
    |u| == |got| == 256 && c <= 256 && (forall x :: 0 <= x < c ==> got[x] == u[x]) && forall x ::
    c <= x < 256 ==> !got[x]
  }

  lemma KnownStart(u: seq<bool>, got: seq<bool>)
    requires |u| == |got| == 256 && forall x :: 0 <= x < 256 ==> !got[x]
    ensures Known(u, got, 0)
  {
  }

  lemma KnownStep(u: seq<bool>, got: seq<bool>, c: nat)
    requires Known(u, got, c) && c < 256
    ensures |got| == 256 && Known(u, if u[c] then got[c := true] else got, c + 1)
  {
  }

  lemma KnownSkip(u: seq<bool>, got: seq<bool>, i: nat)
    requires Known(u, got, 16 * i) && i < 16 && !GroupUsed(u, i)
    ensures Known(u, got, 16 * i + 16)
  {
  }

  lemma KnownAll(u: seq<bool>, got: seq<bool>)
    requires Known(u, got, 256)
    ensures got == u
  {
  }

  method ReadMembers(r: BitReader, inUse: array<bool>, i: nat, ghost u: seq<bool>, ghost k: seq<int>)
      returns (st: Status)
    requires r.Valid() && |u| == 256 == inUse.Length && i < 16
    modifies r, inUse
    ensures r.Valid()
    ensures st.Short? ==> r.Spent()
    ensures |r.Remaining()| <= |old(r.Remaining())|
    ensures old(r.Remaining()) == Members(u, 16 * i, 16 * i + 16, k) && Known(u, old(inUse[..]), 16 * i) ==>
      (st.Fine? || (st.Short? && r.more != [])) &&
      (st.Fine? ==> Known(u, inUse[..], 16 * i + 16) && r.Remaining() == k)
  {
    hide *;
    ghost var good := r.Remaining() == Members(u, 16 * i, 16 * i + 16, k) && Known(u, inUse[..], 16 * i);
    MembersAt(u, 16 * i, 16 * i + 16, k);
    var j := 0;
    while j < 16
      invariant r.Valid() && |r.Remaining()| <= |old(r.Remaining())|
      invariant 0 <= j <= 16 && r.Valid()
      invariant good ==> r.Remaining() == Members(u, 16 * i + j, 16 * i + 16, k) && Known(u, inUse[..], 16 * i + j)
    {
      MembersAt(u, 16 * i + j, 16 * i + 16, k);
      var ok, uc := TakeBits(r, 1, if u[16 * i + j] then 1 else 0, Members(u, 16 * i + j + 1, 16 * i + 16, k));
      if !ok { return Short; }
      if good { KnownStep(u, inUse[..], 16 * i + j); }
      if uc == 1 { inUse[i * 16 + j] := true; }
      j := j + 1;
    }
    st := Fine;
  }

  /** Receive the mapping table. */
  method ReadMap(r: BitReader, ghost u: seq<bool>, ghost k: seq<int>) returns (st: Status, inUse: array<bool>)
    requires r.Valid() && |u| == 256
    modifies r
    ensures r.Valid() && fresh(inUse) && inUse.Length == 256
    ensures st.Short? ==> r.Spent()
    ensures |r.Remaining()| <= |old(r.Remaining())|
    ensures old(r.Remaining()) == MapBits(u, k) ==>
      (st.Fine? || (st.Short? && r.more != [])) && (st.Fine? ==> inUse[..] == u && r.Remaining() == k)
  {
    hide *;
    MapIs(u, k);
    ghost var good := r.Remaining() == MapBits(u, k);
    inUse := new bool[256](_ => false);
    var inUse16;
    st, inUse16 := ReadFlags(r, u, Details(u, 0, k));
    if !st.Fine? { return; }
    KnownStart(u, inUse[..]);
    ghost var found := inUse16[..];
    var i := 0;
    FlagsAt(u, 0, k);
    while i < 16
      invariant r.Valid() && |r.Remaining()| <= |old(r.Remaining())|
      invariant 0 <= i <= 16 && r.Valid() && inUse16[..] == found && (good ==> GroupsFound(found, u))
      invariant good ==> r.Remaining() == Details(u, i, k) && Known(u, inUse[..], 16 * i)
    {
      FlagsAt(u, i, k);
      if good { GroupFound(found, u, i); }
      if inUse16[i] {
        st := ReadMembers(r, inUse, i, u, Details(u, i + 1, k));
        if !st.Fine? { return; }
      } else if good {
        KnownSkip(u, inUse[..], i);
      }
      i := i + 1;
    }
    st := Fine;
    if good { KnownAll(u, inUse[..]); }
  }

  /* ---------- the selectors ---------- */

  /** n ones, and what follows. */
  ghost function OnesThen(n: nat, k: seq<int>): (s: seq<int>) {
    if n == 0 then k else Put(1, 1, OnesThen(n - 1, k))
  }

  lemma {:induction false} OnesUnary(n: nat, k: seq<int>)
    ensures OnesThen(n, Put(0, 1, k)) == Unary(n, k)
    ensures OnesThen(n, Put(1, 1, k)) == OnesThen(n + 1, k) && OnesThen(0, k) == k
    decreases n
  {
    hide Put;
    if n > 0 { OnesUnary(n - 1, k); }
  }

  lemma BitIs(x: int)
    requires 0 <= x < Pow2(1)
    ensures x == 0 || x == 1
  {
    assert Pow2(1) == 2;
  }

  /** One selector's number, in unary; nGroups ones are a failure. */
  method ReadUnary(r: BitReader, nGroups: nat, ghost v: nat, ghost k: seq<int>) returns (st: Status, j: nat)
    requires r.Valid() && 1 <= nGroups
    modifies r
    ensures r.Valid() && (st.Fine? ==> j < nGroups)
    ensures st.Short? ==> r.Spent()
    ensures |r.Remaining()| <= |old(r.Remaining())|
    ensures st.Fine? ==> old(r.Remaining()) == Unary(j, r.Remaining())
    ensures st.Corrupt? ==> old(r.Remaining()) == OnesThen(nGroups, r.Remaining())
    ensures v < nGroups && old(r.Remaining()) == Unary(v, k) ==>
      (st.Fine? || (st.Short? && r.more != [])) && (st.Fine? ==> j == v && r.Remaining() == k)
  {
    hide *;
    j := 0;
    ghost var good := v < nGroups && r.Remaining() == Unary(v, k);
    OnesUnary(0, r.Remaining());
    while true
      invariant r.Valid() && |r.Remaining()| <= |old(r.Remaining())|
      invariant r.Valid() && old(r.Remaining()) == OnesThen(j, r.Remaining())
      invariant 0 <= j < nGroups && r.Valid() && (good ==> j <= v && r.Remaining() == Unary(v - j, k))
      decreases nGroups - j
    {
      if good { UnaryAt(v - j, k); }
      var ok, uc := TakeBits(r, 1, if v <= j then 0 else 1, if v <= j then k else Unary(v - j - 1, k));
      if !ok { return Short, j; }
      BitIs(uc);
      OnesUnary(j, r.Remaining());
      if uc == 0 { return Fine, j; }
      j := j + 1;
      if j >= nGroups { return Corrupt, j; }
    }
  }

  lemma {:induction false} SelectorsMore(codes: seq<nat>, j: nat, i: nat, k: seq<int>)
    requires i <= |codes|
    ensures Selectors(codes + [j], i, k) == Selectors(codes, i, Unary(j, k))
    decreases |codes| - i
  {
    hide Unary;
    if i < |codes| { SelectorsMore(codes, j, i + 1, k); }
  }

  lemma SelectorsNone(k: seq<int>)
    ensures Selectors([], 0, k) == k
  {
  }

  /** The numbers of all selectors; what is taken for them is how they are written. */
  method ReadSelectors(r: BitReader, nGroups: nat, nSelectors: nat, ghost codes: seq<nat>, ghost k: seq<int>)
    returns (st: Status, selectorMtf: array<int>)
    requires r.Valid() && 1 <= nGroups
    modifies r
    ensures r.Valid() && fresh(selectorMtf) && selectorMtf.Length == nSelectors
    ensures st.Short? ==> r.Spent()
    ensures |r.Remaining()| <= |old(r.Remaining())|
    ensures st.Fine? ==> forall i :: 0 <= i < nSelectors ==> 0 <= selectorMtf[i] < nGroups
    ensures st.Fine? ==> old(r.Remaining()) == Selectors(selectorMtf[..], 0, r.Remaining())
    ensures (|codes| == nSelectors && (forall i :: 0 <= i < |codes| ==> codes[i] < nGroups) &&
             old(r.Remaining()) == Selectors(codes, 0, k)) ==>
      (st.Fine? || (st.Short? && r.more != [])) &&
      (st.Fine? ==> selectorMtf[..] == codes && r.Remaining() == k)
  {
    hide *;
    selectorMtf := new int[nSelectors](_ => 0);
    ghost var good :=
      |codes| == nSelectors && (forall i :: 0 <= i < |codes| ==> codes[i] < nGroups) &&
      r.Remaining() == Selectors(codes, 0, k);
    ghost var got: seq<nat> := [];
    SelectorsNone(r.Remaining());
    var i := 0;
    while i < nSelectors
      invariant r.Valid() && |r.Remaining()| <= |old(r.Remaining())|
      invariant 0 <= i <= nSelectors && r.Valid() && forall x :: 0 <= x < i ==> 0 <= selectorMtf[x] < nGroups
      invariant r.Valid() && selectorMtf[..i] == got && old(r.Remaining()) == Selectors(got, 0, r.Remaining())
      invariant good ==> r.Remaining() == Selectors(codes, i, k) && forall x ::
        0 <= x < i ==> selectorMtf[x] == codes[x]
    {
      if good { SelectorsAt(codes, i, k); }
      var j;
      st, j := ReadUnary(r, nGroups, if good then codes[i] else 0, if good then Selectors(codes, i + 1, k) else k);
      if !st.Fine? { return; }
      SelectorsMore(got, j, 0, r.Remaining());
      selectorMtf[i] := j;
      got := got + [j];
      i := i + 1;
    }
    st := Fine;
    assert selectorMtf[..] == selectorMtf[..i];
    if good { SelectorsEnd(codes, k); }
  }

  /* ---------- the coding tables ---------- */

  /** The next length: up, down, or as it is. */
  method ReadLength(r: BitReader, from: int, ghost l: int, ghost k: seq<int>) returns (st: Status, curr: int)
    requires r.Valid()
    modifies r
    ensures r.Valid() && (st.Fine? ==> 1 <= curr <= 20)
    ensures st.Short? ==> r.Spent()
    ensures |r.Remaining()| <= |old(r.Remaining())|
    ensures 1 <= l <= 20 && 1 <= from <= 20 && old(r.Remaining()) == Steps(from, l, k) ==>
      (st.Fine? || (st.Short? && r.more != [])) && (st.Fine? ==> curr == l && r.Remaining() == k)
  {
    hide *;
    curr := from;
    ghost var good := 1 <= l <= 20 && 1 <= from <= 20 && r.Remaining() == Steps(from, l, k);
    while true
      invariant r.Valid() && |r.Remaining()| <= |old(r.Remaining())|
      invariant r.Valid() && (good ==> 1 <= curr <= 20 && r.Remaining() == Steps(curr, l, k))
      decreases |r.Remaining()|
    {
      if curr < 1 || curr > 20 { return Corrupt, curr; }
      StepsAt(curr, l, k);
      if good { StepsSplit(curr, l, k, r.Remaining()); }
      ghost var next := if curr < l then Steps(curr + 1, l, k) else Steps(curr - 1, l, k);
      var ok, uc :=
        TakeBits(r, 1, if curr == l then 0 else 1, if curr == l then k else Put(if curr < l then 0 else 1, 1, next));
      if !ok { return Short, curr; }
      if uc == 0 { return Fine, curr; }
      ok, uc := TakeBits(r, 1, if curr < l then 0 else 1, next);
      if !ok { return Short, curr; }
      if uc == 0 { curr := curr + 1; } else { curr := curr - 1; }
    }
  }

  /** Two bits at once are two bits one after the other. */
  lemma StepsSplit(c: int, l: int, k: seq<int>, stream: seq<int>)
    requires stream == Steps(c, l, k)
    ensures c < l ==> stream == Put(1, 1, Put(0, 1, Steps(c + 1, l, k)))
    ensures c > l ==> stream == Put(1, 1, Put(1, 1, Steps(c - 1, l, k)))
    ensures c == l ==> stream == Put(0, 1, k)
  {
    TwoBits(k);
    if c < l {
      var t := Steps(c + 1, l, k);
      assert [1, 0] + t == [1] + ([0] + t);
    } else if c > l {
      var t := Steps(c - 1, l, k);
      assert [1, 1] + t == [1] + ([1] + t);
    }
  }

  lemma TwoBits(k: seq<int>)
    ensures BitsOf(2, 2) == [1, 0] && BitsOf(3, 2) == [1, 1] && BitsOf(1, 1) == [1] && BitsOf(0, 1) == [0]
  {
    assert BitsOf(1, 1) == BitsOf(0, 0) + [1];
    assert BitsOf(0, 1) == BitsOf(0, 0) + [0];
    assert BitsOf(2, 2) == BitsOf(1, 1) + [0];
    assert BitsOf(3, 2) == BitsOf(1, 1) + [1];
  }

  /** The lengths of one table. */
  method ReadTable(r: BitReader, alphaSize: nat, ghost lens: seq<int>, ghost k: seq<int>)
      returns (st: Status, len: array<int>)
    requires r.Valid() && 0 < alphaSize
    modifies r
    ensures r.Valid() && fresh(len) && len.Length == alphaSize
    ensures st.Short? ==> r.Spent()
    ensures |r.Remaining()| <= |old(r.Remaining())|
    ensures st.Fine? ==> forall i :: 0 <= i < alphaSize ==> 1 <= len[i] <= 20
    ensures |lens| == alphaSize && LensOk(lens) && old(r.Remaining()) == Table(lens, k) ==>
      (st.Fine? || (st.Short? && r.more != [])) && (st.Fine? ==> len[..] == lens && r.Remaining() == k)
  {
    hide *;
    len := new int[alphaSize];
    ghost var good := |lens| == alphaSize && LensOk(lens) && r.Remaining() == Table(lens, k);
    if good { TableIs(lens, k); }
    StepsAt(0, 0, k);
    var ok, curr := TakeBits(r, 5, if good then lens[0] else 0, if good then Deltas(lens, lens[0], 0, k) else k);
    if !ok { return Short, len; }
    var i := 0;
    while i < alphaSize
      invariant r.Valid() && |r.Remaining()| <= |old(r.Remaining())|
      invariant 0 <= i <= alphaSize && r.Valid() && forall x :: 0 <= x < i ==> 1 <= len[x] <= 20
      invariant good ==> 1 <= curr <= 20 && r.Remaining() == Deltas(lens, curr, i, k) && forall x ::
        0 <= x < i ==> len[x] == lens[x]
    {
      if good {
        DeltasAt(lens, curr, i, k);
        LenAt(lens, i);
      }
      st, curr := ReadLength(r, curr, if good then lens[i] else 0, if good then Deltas(lens, lens[i], i + 1, k) else k);
      if !st.Fine? { return; }
      len[i] := curr;
      i := i + 1;
    }
    st := Fine;
    if good { DeltasEnd(lens, curr, k); }
  }

  lemma LenAt(lens: seq<int>, i: nat)
    requires LensOk(lens) && i < |lens|
    ensures 1 <= lens[i] <= 20
  {
  }
}
