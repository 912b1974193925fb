/** bzlib.c, unRLE_obuf_to_output_FAST and _SMALL: a block's bytes are fetched by following tt, or from
    the nibble-packed vector, and its runs are written out, stopping when the output buffer is full. */
module RunOutput {
  import opened ByteSeq
  import opened Counting
  import opened Bwt
  import opened MtfSymbols
  import opened RunLength
  import InverseBwt
  import BlockCrc

  /* ---------- what is owed from a place in the block on ---------- */

  /** Byte u - 1 is in hand: the data of bytes u - 1 to n - 1. d[n] is what is fetched after them. */
  ghost function Rest(d: seq<int>, n: nat, u: nat): (r: seq<int>)
    requires |d| == n + 1 && AreBytes(d) && u >= 1
    ensures AreBytes(r)
  {
    if u <= n then Expand(d[u - 1..n], d[n]) else []
  }

  /** The block's end, or more, will be fetched in the middle of a run. */
  ghost predicate Spoilt(d: seq<int>, n: nat, u: nat)
    requires |d| == n + 1 && u >= 1
  {
    if u <= n then Overruns(d[u - 1..n]) else u > n + 1
  }

  lemma RestFew(d: seq<int>, n: nat, u: nat, m: nat)
    requires |d| == n + 1 && AreBytes(d) && 1 <= u && 1 <= m <= 3 && u + m <= n + 1
    requires (m >= 2 ==> d[u] == d[u - 1]) && (m == 3 ==> d[u + 1] == d[u - 1]) &&
      (u + m == n + 1 || d[u - 1 + m] != d[u - 1])
    ensures Rest(d, n, u) == Repeat(d[u - 1], m) + Rest(d, n, u + m) && Spoilt(d, n, u) == Spoilt(d, n, u + m)
  {
    var s, rest := d[u - 1..n], d[u - 1 + m..n];
    assert s == Repeat(d[u - 1], m) + rest;
    ExpandLiterals(d[u - 1], m, rest, d[n]);
  }

  lemma RestRun(d: seq<int>, n: nat, u: nat)
    requires |d| == n + 1 && AreBytes(d) && 1 <= u && u + 3 <= n && d[u - 1] == d[u] == d[u + 1] == d[u + 2]
    ensures Rest(d, n, u) == Repeat(d[u - 1], 4 + d[u + 3]) + Rest(d, n, u + 5) &&
      Spoilt(d, n, u) == Spoilt(d, n, u + 5)
  {
    var s := d[u - 1..n];
    assert FourEqual(s);
    if |s| == 4 {
      assert Repeat(s[0], 4 + d[n]) + [] == Repeat(s[0], 4 + d[n]);
    } else {
      ExpandRun(s, d[n]);
      assert s[5..] == d[u + 4..n] && s[4] == d[u + 3];
      if u + 5 > n { assert s[5..] == []; }
    }
  }

  lemma RestNone(d: seq<int>, n: nat, u: nat)
    requires |d| == n + 1 && AreBytes(d) && u > n
    ensures u >= 1 && Rest(d, n, u) == []
  {
  }

  /** The bytes fetched from the rows of l. */
  ghost predicate Fetched(l: seq<int>, start: int, d: seq<int>) {
    0 <= start < |l| && Keys(l, 256) && |d| == |l| + 1 && AreBytes(d) && forall i: nat ::
    i < |d| ==> d[i] == Decoded(l, start, i)
  }

  lemma FetchedBytes(l: seq<int>, start: int)
    requires 0 <= start < |l| && Keys(l, 256)
    ensures forall i: nat {:trigger Decoded(l, start, i)} :: 0 <= Decoded(l, start, i) < 256
  {
  }

  ghost function Fetches(l: seq<int>, start: int): (d: seq<int>)
    requires 0 <= start < |l| && Keys(l, 256)
    ensures Fetched(l, start, d)
  {
    FetchedBytes(l, start);
    seq(|l| + 1, i requires 0 <= i => Decoded(l, start, i))
  }

  lemma FetchedAt(l: seq<int>, start: int, d: seq<int>, i: nat)
    requires Fetched(l, start, d)
    ensures 0 <= start < |l| && |d| == |l| + 1 && AreBytes(d) && Keys(l, 256) && 0 <= Decoded(l, start, i) < 256 &&
      (i <= |l| ==> d[i] == Decoded(l, start, i))
  {
  }

  /** Written: the owed data is handed over byte by byte. */
  ghost predicate Owing(crc0: bv32, out: seq<int>, crc: bv32, owed: seq<int>, all: seq<int>) {
    AreBytes(out) && crc == BlockCrc.Over(crc0, out) && out + owed == all
  }

  lemma OwingStart(crc0: bv32, all: seq<int>)
    ensures Owing(crc0, [], crc0, all, all)
  {
    assert [] + all == all;
  }

  lemma OwingByte(crc0: bv32, out: seq<int>, crc: bv32, ch: int, len: nat, rest: seq<int>, all: seq<int>)
    requires Owing(crc0, out, crc, Repeat(ch, len) + rest, all) && len > 0 && 0 <= ch < 256
    ensures Owing(crc0, out + [ch], BlockCrc.Update(crc, BlockCrc.ByteWord(ch)), Repeat(ch, len - 1) + rest, all)
  {
    hide BlockCrc.Update;
    hide BlockCrc.ByteWord;
    BlockCrc.OverOne(crc0, out, ch);
    assert Repeat(ch, len) + rest == [ch] + (Repeat(ch, len - 1) + rest);
    assert out + ([ch] + (Repeat(ch, len - 1) + rest)) == out + [ch] + (Repeat(ch, len - 1) + rest);
  }

  lemma NoneLeft(ch: int, rest: seq<int>)
    ensures Repeat(ch, 0) + rest == rest
  {
  }

  /** Where byte k is fetched from: row tPos of the links, or position tPos of the reversed cycle. */
  ghost predicate Place(small: bool, l: seq<int>, start: int, v: seq<int>, m: nat, store: seq<int>, ll4: seq<int>,
      cf: seq<int>, tPos: int, k: nat) {
    0 <= start < |l| &&
    if small then InverseBwt.Cycled(l, v, start, m, store, ll4, cf) && InverseBwt.At(l, start, m, tPos, k)
    else InverseBwt.Linked(l, store, |l|) && tPos == Row(l, start, k)
  }

  lemma PlaceParts(small: bool, l: seq<int>, start: int, v: seq<int>, m: nat, store: seq<int>, ll4: seq<int>,
      cf: seq<int>, tPos: int, k: nat)
    requires Place(small, l, start, v, m, store, ll4, cf, tPos, k)
    ensures 0 <= start < |l|
    ensures small ==> InverseBwt.Cycled(l, v, start, m, store, ll4, cf) && InverseBwt.At(l, start, m, tPos, k)
    ensures !small ==> InverseBwt.Linked(l, store, |l|) && tPos == Row(l, start, k)
  {
    hide InverseBwt.Cycled;
    hide InverseBwt.At;
    hide InverseBwt.Linked;
  }

  lemma PlaceFast(l: seq<int>, start: int, v: seq<int>, m: nat, store: seq<int>, ll4: seq<int>, cf: seq<int>, tPos: int,
      k: nat)
    requires 0 <= start < |l| && InverseBwt.Linked(l, store, |l|) && tPos == Row(l, start, k)
    ensures Place(false, l, start, v, m, store, ll4, cf, tPos, k)
  {
    hide InverseBwt.Linked;
  }

  lemma PlaceSmall(l: seq<int>, start: int, v: seq<int>, m: nat, store: seq<int>, ll4: seq<int>, cf: seq<int>,
      tPos: int, k: nat)
    requires 0 <= start < |l| && InverseBwt.Cycled(l, v, start, m, store, ll4, cf) &&
      InverseBwt.At(l, start, m, tPos, k)
    ensures Place(true, l, start, v, m, store, ll4, cf, tPos, k)
  {
    hide InverseBwt.Cycled;
    hide InverseBwt.At;
  }

  lemma RestSome(d: seq<int>, n: nat, u: nat)
    requires |d| == n + 1 && AreBytes(d) && 1 <= u <= n
    ensures Rest(d, n, u) != []
  {
  }

  lemma RepeatLength(ch: int, n: nat)
    ensures |Repeat(ch, n)| == n
  {
  }

  class BlockOutput {
    const small: bool
    const store: array<int>  // tt; ll16 of the small decoder
    const ll4: array<int>
    const cftab: array<int>
    var tPos: int
    var nblockUsed: nat
    const saveNblock: nat
    var k0: int
    var stateOutCh: int
    var stateOutLen: nat
    var calculatedBlockCRC: bv32
    ghost const l: seq<int>
    ghost const start: int
    ghost const d: seq<int>
    ghost const v: seq<int>
    ghost const m: nat

    /** The first row of the fast decoder, and its first byte. */
    constructor Fast(tt: array<int>, ll4: array<int>, cftab: array<int>, nblock: nat, origPtr: int, ghost l: seq<int>)
      requires 0 <= origPtr < nblock == |l| && Keys(l, 256) && InverseBwt.Linked(l, tt[..], nblock)
      ensures Valid() && !small && store == tt && this.ll4 == ll4 && this.cftab == cftab && this.l == l &&
        start == origPtr && d == Fetches(l, origPtr)
      ensures saveNblock == nblock && nblockUsed == 1 && stateOutLen == 0 && calculatedBlockCRC == BlockCrc.INITIAL
    {
      hide *;
      InverseBwt.LinkedAt(l, tt[..], origPtr);
      FirstRow(l, origPtr);
      small, store, this.ll4, this.cftab := false, tt, ll4, cftab;
      saveNblock, this.l, start, d, v, m := nblock, l, origPtr, Fetches(l, origPtr), [], 0;
      tPos := tt[..][origPtr] / 256;
      nblockUsed, stateOutLen, stateOutCh, calculatedBlockCRC := 0, 0, 0, BlockCrc.INITIAL;
      new;
      PlaceFast(l, start, v, m, store[..], ll4[..], cftab[..], tPos, 0);
      FetchedAt(l, start, d, 0);
      k0 := Fetch();
      ValidIntro();
    }

    /** And of the small one. */
    constructor Small(ll16: array<int>, ll4: array<int>, cftab: array<int>, nblock: nat, origPtr: int,
        ghost l: seq<int>, ghost v: seq<int>, ghost m: nat)
      requires InverseBwt.Cycled(l, v, origPtr, m, ll16[..], ll4[..], cftab[..]) && nblock == |l|
      ensures Valid() && small && store == ll16 && this.ll4 == ll4 && this.cftab == cftab && this.l == l &&
        start == origPtr && Fetched(l, origPtr, d)
      ensures saveNblock == nblock && nblockUsed == 1 && stateOutLen == 0 && calculatedBlockCRC == BlockCrc.INITIAL
    {
      hide *;
      InverseBwt.CycledParts(l, v, origPtr, m, ll16[..], ll4[..], cftab[..]);
      InverseBwt.AtStart(l, v, origPtr, m);
      small, store, this.ll4, this.cftab := true, ll16, ll4, cftab;
      saveNblock, this.l, start, d := nblock, l, origPtr, Fetches(l, origPtr);
      this.v, this.m := v, m;
      tPos := origPtr;
      nblockUsed, stateOutLen, stateOutCh, calculatedBlockCRC := 0, 0, 0, BlockCrc.INITIAL;
      new;
      PlaceSmall(l, start, v, m, store[..], ll4[..], cftab[..], tPos, 0);
      FetchedAt(l, start, d, 0);
      k0 := Fetch();
      ValidIntro();
    }

    /** tPos is where the byte number nblockUsed is fetched from, and the byte before it is in hand. */
    ghost predicate Valid()
      reads this, store, ll4, cftab
    {
      Fetched(l, start, d) && saveNblock == |l| &&
      Place(small, l, start, v, m, store[..], ll4[..], cftab[..], tPos, nblockUsed) &&
      1 <= nblockUsed <= saveNblock + 2 && (nblockUsed <= saveNblock ==> k0 == d[nblockUsed - 1]) &&
      0 <= stateOutCh < 256
    }

    lemma ValidParts()
      requires Valid()
      ensures Fetched(l, start, d) && saveNblock == |l| > 0 && 0 <= start < |l| && Keys(l, 256)
      ensures 1 <= nblockUsed <= saveNblock + 2 &&
        Place(small, l, start, v, m, store[..], ll4[..], cftab[..], tPos, nblockUsed)
      ensures |d| == saveNblock + 1 && AreBytes(d) && (nblockUsed <= saveNblock ==> k0 == d[nblockUsed - 1]) &&
        0 <= stateOutCh < 256
    {
      hide Place;
    }

    lemma ValidIntro()
      requires Fetched(l, start, d) && saveNblock == |l| && 1 <= nblockUsed <= saveNblock + 2
      requires Place(small, l, start, v, m, store[..], ll4[..], cftab[..], tPos, nblockUsed) && |d| == saveNblock + 1 &&
        (nblockUsed <= saveNblock ==> k0 == d[nblockUsed - 1]) && 0 <= stateOutCh < 256
      ensures Valid()
    {
      hide Place;
    }

    /** What is still to come out of this block. */
    ghost function Owed(): (o: seq<int>)
      requires Valid()
      reads this, store, ll4, cftab
    {
      Repeat(stateOutCh, stateOutLen) + Rest(d, saveNblock, nblockUsed)
    }

    ghost predicate Broken()
      requires Valid()
      reads this, store, ll4, cftab
    {
      Spoilt(d, saveNblock, nblockUsed)
    }

    /** BZ_GET_FAST or BZ_GET_SMALL */
    method Fetch() returns (k: int)
      requires Fetched(l, start, d) && saveNblock == |l| &&
        Place(small, l, start, v, m, store[..], ll4[..], cftab[..], tPos, nblockUsed)
      modifies this`tPos, this`nblockUsed
      ensures nblockUsed == old(nblockUsed) + 1 &&
        Place(small, l, start, v, m, store[..], ll4[..], cftab[..], tPos, nblockUsed) && 0 <= k < 256
      ensures old(nblockUsed) <= saveNblock && old(nblockUsed) < |d| ==> k == d[old(nblockUsed)]
    {
      hide *;
      FetchedAt(l, start, d, nblockUsed);
      PlaceParts(small, l, start, v, m, store[..], ll4[..], cftab[..], tPos, nblockUsed);
      if small {
        k, tPos := InverseBwt.GetSmall(store, ll4, cftab, tPos, l, v, start, m, nblockUsed);
        PlaceSmall(l, start, v, m, store[..], ll4[..], cftab[..], tPos, nblockUsed + 1);
      } else {
        k, tPos := InverseBwt.GetFast(store, tPos, l, start, nblockUsed);
        PlaceFast(l, start, v, m, store[..], ll4[..], cftab[..], tPos, nblockUsed + 1);
      }
      nblockUsed := nblockUsed + 1;
    }

    /** n equal bytes from byte u - 1 on, and a different one, or the end, after them. */
    lemma RunDone(u: nat, n: nat)
      requires Fetched(l, start, d) && saveNblock == |l| && 1 <= nblockUsed <= saveNblock + 2
      requires Place(small, l, start, v, m, store[..], ll4[..], cftab[..], tPos, nblockUsed) && |d| == saveNblock + 1 &&
        AreBytes(d) && (nblockUsed <= saveNblock ==> k0 == d[nblockUsed - 1])
      requires 1 <= u && 1 <= n <= 3 && nblockUsed == u + n <= saveNblock + 1 && stateOutCh == d[u - 1] &&
        stateOutLen == n && 0 <= stateOutCh < 256
      requires (n >= 2 ==> d[u] == d[u - 1]) && (n == 3 ==> d[u + 1] == d[u - 1]) &&
        (u + n == saveNblock + 1 || d[u - 1 + n] != d[u - 1])
      ensures Valid() && Owed() == Rest(d, saveNblock, u) && Broken() == Spoilt(d, saveNblock, u)
    {
      hide *;
      RestFew(d, saveNblock, u, n);
      ValidIntro();
      OwedIs();
    }

    /** A new run is started: its length is found, and the byte after it is in hand. */
    method NextRun()
      requires Valid() && nblockUsed <= saveNblock && stateOutLen == 0
      modifies this`tPos, this`nblockUsed, this`k0, this`stateOutCh, this`stateOutLen
      ensures Valid() && Owed() == old(Owed()) && Broken() == old(Broken()) && stateOutLen > 0
      ensures nblockUsed > old(nblockUsed)
    {
      hide *;
      ValidParts();
      ghost var u := nblockUsed;
      OwedIs();
      NoneLeft(stateOutCh, Rest(d, saveNblock, u));
      stateOutCh := k0;
      DataByte(d, u - 1);
      var k1 := Fetch();
      stateOutLen := 1;
      // the fast loop looks at the byte first, the small one at the end of the block
      if k1 != stateOutCh || nblockUsed == saveNblock + 1 {
        if if small then nblockUsed != saveNblock + 1 else k1 != stateOutCh { k0 := k1; }
        RunDone(u, 1);
        return;
      }
      LongRun(u);
    }

    /** Two equal bytes so far. */
    method LongRun(ghost u: nat)
      requires Fetched(l, start, d) && saveNblock == |l| &&
        Place(small, l, start, v, m, store[..], ll4[..], cftab[..], tPos, nblockUsed)
      requires 1 <= u && nblockUsed == u + 1 <= saveNblock && |d| == saveNblock + 1 && AreBytes(d) &&
        stateOutCh == d[u - 1] == d[u] && 0 <= stateOutCh < 256
      modifies this`tPos, this`nblockUsed, this`k0, this`stateOutLen
      ensures Valid() && Owed() == Rest(d, saveNblock, u) && Broken() == Spoilt(d, saveNblock, u) && stateOutLen > 0
      ensures nblockUsed > old(nblockUsed)
    {
      hide *;
      var k1 := Fetch();
      stateOutLen := 2;
      if nblockUsed == saveNblock + 1 || k1 != stateOutCh {
        if nblockUsed != saveNblock + 1 { k0 := k1; }
        RunDone(u, 2);
        return;
      }
      k1 := Fetch();
      stateOutLen := 3;
      if nblockUsed == saveNblock + 1 || k1 != stateOutCh {
        if nblockUsed != saveNblock + 1 { k0 := k1; }
        RunDone(u, 3);
        return;
      }
      k1 := Fetch();
      stateOutLen := k1 + 4;
      k0 := Fetch();
      RestRun(d, saveNblock, u);
      ValidIntro();
      OwedIs();
    }

    /** Unless the block has been put out, something is left. */
    lemma SomeOwed()
      requires Valid() && !Broken() && !(nblockUsed == saveNblock + 1 && stateOutLen == 0)
      ensures Owed() != []
    {
      hide *;
      ValidParts();
      OwedIs();
      if nblockUsed <= saveNblock {
        RestSome(d, saveNblock, nblockUsed);
      } else {
        SpoiltEnd(d, saveNblock, nblockUsed);
      }
      RepeatLength(stateOutCh, stateOutLen);
    }

    /** Nothing is left. */
    lemma AllOwed()
      requires Valid() && nblockUsed == saveNblock + 1 && stateOutLen == 0
      ensures Owed() == []
    {
      RestNone(d, saveNblock, nblockUsed);
    }

    /** Output of up to room bytes. */
    method UnRle(room: nat) returns (out: seq<int>, corrupt: bool)
      requires Valid()
      modifies this`tPos, this`nblockUsed, this`k0, this`stateOutCh, this`stateOutLen, this`calculatedBlockCRC
      ensures Valid() && |out| <= room && Owing(old(calculatedBlockCRC), out, calculatedBlockCRC, Owed(), old(Owed()))
      ensures Broken() == old(Broken()) && (corrupt ==> Broken())
      ensures !corrupt ==> |out| == room || (nblockUsed == saveNblock + 1 && stateOutLen == 0)
    {
      if small {
        out, corrupt := UnRleSmall(room);
      } else {
        out, corrupt := UnRleFast(room);
      }
    }

    /** unRLE_obuf_to_output_FAST, not randomised: a full buffer is looked for only within a run. */
    method UnRleFast(room: nat) returns (out: seq<int>, corrupt: bool)
      requires Valid()
      modifies this`tPos, this`nblockUsed, this`k0, this`stateOutCh, this`stateOutLen, this`calculatedBlockCRC
      ensures Valid() && |out| <= room && Owing(old(calculatedBlockCRC), out, calculatedBlockCRC, Owed(), old(Owed()))
      ensures Broken() == old(Broken()) && (corrupt ==> Broken())
      ensures !corrupt ==> (|out| == room && stateOutLen > 0) || (nblockUsed == saveNblock + 1 && stateOutLen == 0)
    {
      hide *;
      out := [];
      corrupt := false;
      OwingStart(calculatedBlockCRC, Owed());
      while true
        invariant Valid() && |out| <= room &&
          Owing(old(calculatedBlockCRC), out, calculatedBlockCRC, Owed(), old(Owed())) && Broken() == old(Broken())
        decreases saveNblock + 2 - nblockUsed
      {
        ValidParts();
        ghost var before := nblockUsed;
        while stateOutLen > 0
          invariant Valid() && |out| <= room &&
            Owing(old(calculatedBlockCRC), out, calculatedBlockCRC, Owed(), old(Owed())) && Broken() == old(Broken())
          invariant nblockUsed == before
          decreases stateOutLen
        {
          if |out| == room { return; }
          out := PutByte(out, old(calculatedBlockCRC), old(Owed()));
        }
        ValidParts();
        OwedIs();
        if nblockUsed > saveNblock + 1 {
          SpoiltEnd(d, saveNblock, nblockUsed);
          corrupt := true;
          return;
        }
        if nblockUsed == saveNblock + 1 { return; }
        NextRun();
      }
    }

    /** unRLE_obuf_to_output_SMALL, not randomised: a full buffer stops it first of all. */
    method UnRleSmall(room: nat) returns (out: seq<int>, corrupt: bool)
      requires Valid()
      modifies this`tPos, this`nblockUsed, this`k0, this`stateOutCh, this`stateOutLen, this`calculatedBlockCRC
      ensures Valid() && |out| <= room && Owing(old(calculatedBlockCRC), out, calculatedBlockCRC, Owed(), old(Owed()))
      ensures Broken() == old(Broken()) && (corrupt ==> Broken())
      ensures !corrupt ==> |out| == room || (nblockUsed == saveNblock + 1 && stateOutLen == 0)
    {
      hide *;
      out := [];
      corrupt := false;
      OwingStart(calculatedBlockCRC, Owed());
      while true
        invariant Valid() && |out| <= room &&
          Owing(old(calculatedBlockCRC), out, calculatedBlockCRC, Owed(), old(Owed())) && Broken() == old(Broken())
        decreases saveNblock + 2 - nblockUsed
      {
        ValidParts();
        ghost var before := nblockUsed;
        while true
          invariant Valid() && |out| <= room &&
            Owing(old(calculatedBlockCRC), out, calculatedBlockCRC, Owed(), old(Owed())) && Broken() == old(Broken())
          invariant nblockUsed == before
          decreases stateOutLen
        {
          if |out| == room { return; }
          if stateOutLen == 0 { break; }
          out := PutByte(out, old(calculatedBlockCRC), old(Owed()));
        }
        ValidParts();
        OwedIs();
        if nblockUsed == saveNblock + 1 { return; }
        if nblockUsed > saveNblock + 1 {
          SpoiltEnd(d, saveNblock, nblockUsed);
          corrupt := true;
          return;
        }
        NextRun();
      }
    }

    /** One byte of the run under way. */
    method PutByte(out0: seq<int>, ghost crc0: bv32, ghost all: seq<int>) returns (out: seq<int>)
      requires Valid() && stateOutLen > 0 && Owing(crc0, out0, calculatedBlockCRC, Owed(), all)
      modifies this`stateOutLen, this`calculatedBlockCRC
      ensures Valid() && stateOutLen == old(stateOutLen) - 1 && Owing(crc0, out, calculatedBlockCRC, Owed(), all) &&
        Broken() == old(Broken())
      ensures |out| == |out0| + 1
    {
      hide *;
      ValidParts();
      OwedIs();
      OwingByte(crc0, out0, calculatedBlockCRC, stateOutCh, stateOutLen, Rest(d, saveNblock, nblockUsed), all);
      out := out0 + [stateOutCh];
      calculatedBlockCRC := BlockCrc.Update(calculatedBlockCRC, BlockCrc.ByteWord(stateOutCh));
      stateOutLen := stateOutLen - 1;
      ValidIntro();
      OwedIs();
    }

    lemma OwedIs()
      requires Valid()
      ensures nblockUsed >= 1 && |d| == saveNblock + 1 && AreBytes(d)
      ensures Owed() == Repeat(stateOutCh, stateOutLen) + Rest(d, saveNblock, nblockUsed) &&
        Broken() == Spoilt(d, saveNblock, nblockUsed)
    {
    }
  }

  lemma FirstRow(l: seq<int>, start: int)
    requires 0 <= start < |l|
    ensures Row(l, start, 0) == Inverse(l, start)
  {
  }

  lemma SpoiltEnd(d: seq<int>, n: nat, u: nat)
    requires |d| == n + 1 && u > n
    ensures u >= 1 && Spoilt(d, n, u) == (u > n + 1)
  {
  }

  lemma DataByte(d: seq<int>, i: nat)
    requires AreBytes(d) && i < |d|
    ensures 0 <= d[i] < 256
  {
  }

  /* ---------- setting up ---------- */

  /** The arrays of a block whose last column l is in store: its links, or T with the cycle through
      origPtr turned round. Whatever ll4 holds from earlier blocks makes no difference. */
  method StartOutput(small: bool, store: array<int>, ll4: array<int>, cftab: array<int>, nblock: nat, origPtr: int,
      ghost l: seq<int>)
    returns (o: BlockOutput)
    requires store != ll4 && store != cftab && ll4 != cftab && 0 <= origPtr < nblock == |l| <= 900_000 &&
      Keys(l, 256) && nblock <= store.Length
    requires store[..nblock] == l && InverseBwt.Cumulative(l, cftab[..], 257) &&
      (small ==> InverseBwt.Packs(store[..], ll4[..]))
    modifies store, ll4, cftab
    ensures o.Valid() && fresh(o) && o.small == small && o.store == store && o.ll4 == ll4 && o.cftab == cftab &&
      o.l == l && o.start == origPtr
    ensures o.saveNblock == nblock && Fetched(l, origPtr, o.d) && o.nblockUsed == 1 && o.stateOutLen == 0 &&
      o.calculatedBlockCRC == BlockCrc.INITIAL
    ensures !small ==> ll4[..] == old(ll4[..])
    ensures small ==> InverseBwt.Packs(store[..], ll4[..])
  {
    hide *;
    if small {
      CumulativeSize(l, cftab[..]);
      var cftabCopy := CopyTable(cftab);
      ghost var cf := cftab[..];
      InverseBwt.BuildT(store, ll4, cftabCopy, nblock, l);
      ghost var v, m := InverseBwt.ReverseCycle(store, ll4, nblock, origPtr, l);
      assert cftab[..] == cf;
      InverseBwt.CycledIntro(l, v, origPtr, m, store[..], ll4[..], cftab[..]);
      InverseBwt.HoldsPacks(store[..], ll4[..], v);
      o := new BlockOutput.Small(store, ll4, cftab, nblock, origPtr, l, v, m);
    } else {
      ghost var nibbles := ll4[..];
      InverseBwt.BuildTt(store, cftab, nblock, l);
      assert ll4[..] == nibbles;
      o := new BlockOutput.Fast(store, ll4, cftab, nblock, origPtr, l);
      FetchesAre(l, origPtr);
    }
  }

  lemma FetchesAre(l: seq<int>, start: int)
    requires 0 <= start < |l| && Keys(l, 256)
    ensures Fetched(l, start, Fetches(l, start))
  {
  }

  method CopyTable(cftab: array<int>) returns (cftabCopy: array<int>)
    requires cftab.Length == 257
    ensures fresh(cftabCopy) && cftabCopy[..] == cftab[..]
  {
    cftabCopy := new int[257];
    var i := 0;
    while i <= 256
      invariant 0 <= i <= 257 && forall k :: 0 <= k < i ==> cftabCopy[k] == cftab[k]
    {
      cftabCopy[i] := cftab[i];
      i := i + 1;
    }
  }

  lemma CumulativeSize(l: seq<int>, cf: seq<int>)
    requires InverseBwt.Cumulative(l, cf, 257)
    ensures |cf| == 257
  {
  }

  /** Both decoders owe the same data for the same block. */
  lemma SameOwed(fast: BlockOutput, small: BlockOutput)
    requires fast.Valid() && small.Valid() && fast.l == small.l && fast.start == small.start
    requires fast.nblockUsed == small.nblockUsed && fast.stateOutLen == small.stateOutLen &&
      (fast.stateOutLen > 0 ==> fast.stateOutCh == small.stateOutCh)
    ensures fast.Owed() == small.Owed() && fast.Broken() == small.Broken()
  {
    hide Place;
    assert fast.d == small.d;
    if fast.stateOutLen == 0 { assert Repeat(fast.stateOutCh, 0) == Repeat(small.stateOutCh, 0); }
  }
}
