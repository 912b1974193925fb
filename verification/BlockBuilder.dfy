/** bzlib.c, the collecting half of the compressor: add_pair_to_block, flush_RL, ADD_CHAR_TO_BLOCK. */
module BlockBuilder {
  import opened ByteSeq
  import opened MtfSymbols
  import opened RunLength
  import BlockCrc

  const NO_CHAR := 256

  /** The block holds the runs; the bytes in it and no others are marked in use; the checksum is that of their data. */
  ghost predicate Filled(b: seq<int>, inUse: seq<bool>, runs: seq<Run>, crc: bv32) {
    IsRuns(runs) && b == PackFrom(runs, 0) && Marks(inUse, b) &&
    crc == BlockCrc.Over(BlockCrc.INITIAL, DataFrom(runs, 0))
  }

  /** The run being formed: none, or one that may come after those in the block. */
  ghost predicate Forming(runs: seq<Run>, ch: int, len: int) {
    if ch == NO_CHAR then len == 0 else IsRuns(runs) && IsRuns(runs + [Run(ch, len)])
  }

  ghost function Pending(ch: int, len: int): (d: seq<int>)
    requires 0 <= ch <= 256 && (ch == NO_CHAR || len >= 0)
  {
    if ch == NO_CHAR then [] else Repeat(ch, len)
  }

  /* ---------- steps ---------- */

  lemma NothingFilled(inUse: seq<bool>)
    requires |inUse| == 256 && forall v :: 0 <= v < 256 ==> !inUse[v]
    ensures Filled([], inUse, [], BlockCrc.INITIAL) && DataFrom([], 0) == []
  {
  }

  lemma FormingParts(runs: seq<Run>, ch: int, len: int)
    requires Forming(runs, ch, len) && ch != NO_CHAR
    ensures IsRuns(runs) && IsRuns(runs + [Run(ch, len)]) && 0 <= ch < 256 && 1 <= len <= 255
  {
    assert (runs + [Run(ch, len)])[|runs|] == Run(ch, len);
  }

  /** The first byte of a run, after the run before has gone into the block. */
  lemma FormingNext(runs: seq<Run>, ch: int, len: int, z: int)
    requires Forming(runs, ch, len) && ch != NO_CHAR && (z != ch || len == 255) && 0 <= z < 256
    ensures Forming(runs + [Run(ch, len)], z, 1)
  {
    var more := runs + [Run(ch, len)];
    var two := more + [Run(z, 1)];
    forall i {:trigger two[i]} | 0 <= i < |two| ensures 0 <= two[i].ch < 256 && 1 <= two[i].len <= 255 {
      if i < |more| { assert two[i] == more[i]; }
    }
    forall i, j | 0 <= i && j == i + 1 < |two| ensures two[i].len == 255 || two[i].ch != two[j].ch {
      if j < |more| { assert two[i] == more[i] && two[j] == more[j]; }
    }
  }

  lemma FormingFirst(z: int, runs: seq<Run>)
    requires 0 <= z < 256 && runs == []
    ensures Forming(runs, z, 1) && Pending(z, 1) == [z]
  {
  }

  /** The run grows. */
  lemma FormingMore(runs: seq<Run>, ch: int, len: int)
    requires Forming(runs, ch, len) && ch != NO_CHAR && len < 255
    ensures Forming(runs, ch, len + 1) && len >= 0 && 0 <= ch < 256 && Pending(ch, len + 1) == Pending(ch, len) + [ch]
  {
    var a, b := runs + [Run(ch, len)], runs + [Run(ch, len + 1)];
    assert a[|runs|].ch == ch;
    forall i {:trigger b[i]} | 0 <= i < |b| ensures 0 <= b[i].ch < 256 && 1 <= b[i].len <= 255 {
      assert a[i].ch == b[i].ch;
      if i < |runs| { assert a[i] == b[i]; }
    }
    forall i, j | 0 <= i && j == i + 1 < |b| ensures b[i].len == 255 || b[i].ch != b[j].ch {
      assert a[i] == b[i] && a[j].ch == b[j].ch;
    }
  }

  /** Between blocks. */
  lemma FormingAlone(runs: seq<Run>, ch: int, len: int)
    requires Forming(runs, ch, len)
    ensures Forming([], ch, len) && (ch == NO_CHAR || (0 <= ch < 256 && 1 <= len <= 255))
  {
    if ch != NO_CHAR { FormingParts(runs, ch, len); }
  }

  /** A run goes into the block. */
  lemma FilledMore(b: seq<int>, inUse: seq<bool>, inUse': seq<bool>, runs: seq<Run>, crc: bv32, r: Run, crc': bv32)
    requires Filled(b, inUse, runs, crc) && IsRuns(runs + [r]) && 1 <= r.len <= 255 && 0 <= r.ch < 256 &&
      |inUse'| == 256
    requires crc' == BlockCrc.Over(crc, Repeat(r.ch, r.len))
    requires forall v :: 0 <= v < 256 ==> (inUse'[v] <==> inUse[v] || Marked(r.ch, r.len, v))
    ensures Filled(b + Pack(r), inUse', runs + [r], crc')
    ensures DataFrom(runs + [r], 0) == DataFrom(runs, 0) + Repeat(r.ch, r.len)
  {
    hide IsRuns;
    hide BlockCrc.Over;
    hide PackFrom;
    hide DataFrom;
    PackMore(runs, r, 0);
    BlockCrc.OverConcat(BlockCrc.INITIAL, DataFrom(runs, 0), Repeat(r.ch, r.len));
    forall v | 0 <= v < 256 ensures inUse'[v] <==> v in b + Pack(r) {
      PackHolds(r, v);
    }
  }

  /** The bytes a run adds to a block. */
  ghost predicate Marked(ch: int, len: int, v: int) {
    v == ch || (len >= 4 && v == len - 4)
  }

  lemma PackHolds(r: Run, v: int)
    requires 1 <= r.len <= 255
    ensures v in Pack(r) <==> Marked(r.ch, r.len, v)
  {
    if r.len < 4 {
      assert Pack(r)[0] == r.ch;
    } else {
      assert Pack(r)[0] == r.ch && Pack(r)[4] == r.len - 4;
    }
  }

  lemma MarkedIs(ch: int, len: int)
    ensures forall v :: Marked(ch, len, v) <==> v == ch || (len >= 4 && v == len - 4)
  {
  }

  lemma FilledFacts(b: seq<int>, inUse: seq<bool>, runs: seq<Run>, crc: bv32)
    requires Filled(b, inUse, runs, crc)
    ensures IsRuns(runs) && Marks(inUse, b) && AreBytes(b) && b == PackFrom(runs, 0)
  {
  }

  lemma RunPacked(ch: int, len: int)
    requires len >= 1
    ensures Pack(Run(ch, len)) == if len == 1 then [ch] else if len == 2 then [ch, ch]
      else if len == 3 then [ch, ch, ch] else [ch, ch, ch, ch, len - 4]
  {
  }

  lemma RepeatOne(ch: int, n: nat)
    ensures Repeat(ch, n + 1) == Repeat(ch, n) + [ch] && Repeat(ch, 0) == [] && Repeat(ch, 1) == [ch] &&
      (0 <= ch < 256 ==> AreBytes(Repeat(ch, n)))
  {
  }

  lemma PendingIs(ch: int, len: int)
    requires 0 <= ch < 256 && len >= 0
    ensures Pending(ch, len) == Repeat(ch, len) && Pending(NO_CHAR, 0) == []
  {
  }

  lemma DataAppend(a: seq<int>, b: seq<int>, c: seq<int>)
    ensures a + (b + c) == a + b + c && a + [] == a
  {
  }

  class Builder {
    var stateInCh: int
    var stateInLen: int
    const block: array<int>
    var nblock: int
    const inUse: array<bool>
    var blockCRC: bv32
    ghost var runs: seq<Run>

    ghost predicate Valid()
      reads this, block, inUse
    {
      inUse.Length == 256 && 0 <= nblock <= block.Length && 0 <= stateInCh <= 256 &&
      Filled(block[..nblock], inUse[..], runs, blockCRC) && Forming(runs, stateInCh, stateInLen)
    }

    /** What has gone into the block, and what waits for the end of its run. */
    ghost function InBlock(): (d: seq<int>)
      requires Valid()
      reads this, block, inUse
    {
      DataFrom(runs, 0)
    }

    ghost function Waiting(): (d: seq<int>)
      requires Valid()
      reads this, block, inUse
    {
      FormingAlone(runs, stateInCh, stateInLen);
      Pending(stateInCh, stateInLen)
    }

    /** init_RL and prepare_new_block on an empty state. */
    constructor (size: nat)
      ensures Valid() && nblock == 0 && InBlock() == [] && Waiting() == [] && block.Length == size && fresh(block) &&
        fresh(inUse)
      ensures stateInCh == NO_CHAR && runs == []
    {
      stateInCh, stateInLen := NO_CHAR, 0;
      block := new int[size];
      inUse := new bool[256](_ => false);
      nblock, blockCRC, runs := 0, BlockCrc.INITIAL, [];
      new;
      NothingFilled(inUse[..]);
      assert block[..0] == [];
    }

    /** prepare_new_block: the waiting run stays. */
    method PrepareNewBlock()
      requires Valid()
      modifies this, inUse
      ensures Valid() && nblock == 0 && InBlock() == [] && Waiting() == old(Waiting()) && stateInCh == old(stateInCh) &&
        runs == []
    {
      hide *;
      ValidParts();
      WaitingIs();
      FormingAlone(runs, stateInCh, stateInLen);
      nblock, blockCRC, runs := 0, BlockCrc.INITIAL, [];
      var i := 0;
      while i < 256
        modifies inUse
        invariant 0 <= i <= 256 && forall v :: 0 <= v < i ==> !inUse[v]
      {
        inUse[i] := false;
        i := i + 1;
      }
      NothingFilled(inUse[..]);
      assert block[..0] == [];
      ValidIntro();
      WaitingIs();
    }

    /** Put one byte at the end of the block. */
    method Append(ch: int)
      requires 0 <= nblock < block.Length
      modifies this`nblock, block
      ensures nblock == old(nblock) + 1 && block[..nblock] == old(block[..nblock]) + [ch]
    {
      block[nblock] := ch;
      nblock := nblock + 1;
    }

    /** The bytes of a run, one after the other into the checksum. */
    static method UpdateRun(crc0: bv32, ch: int, len: nat) returns (crc: bv32)
      requires 0 <= ch < 256
      ensures crc == OverRepeat(crc0, ch, len)
    {
      hide *;
      crc := crc0;
      OverRepeatStep(crc0, ch, 0);
      var i := 0;
      while i < len
        invariant 0 <= i <= len && crc == OverRepeat(crc0, ch, i)
      {
        OverRepeatStep(crc0, ch, i);
        crc := BlockCrc.Update(crc, BlockCrc.ByteWord(ch));
        i := i + 1;
      }
    }

    /** The block form of a run. */
    method PutRun(ch: int, len: int)
      requires 0 <= ch < 256 && 1 <= len <= 255 && inUse.Length == 256 && 0 <= nblock && nblock + 5 <= block.Length
      modifies this`nblock, block, inUse
      ensures old(nblock) < nblock <= old(nblock) + 5 && block[..nblock] == old(block[..nblock]) + Pack(Run(ch, len))
      ensures forall v :: 0 <= v < 256 ==> (inUse[v] <==> old(inUse[v]) || Marked(ch, len, v))
    {
      hide *;
      RunPacked(ch, len);
      MarkedIs(ch, len);
      inUse[ch] := true;
      if len == 1 {
        Append(ch);
      } else if len == 2 {
        Append(ch);
        Append(ch);
      } else if len == 3 {
        Append(ch);
        Append(ch);
        Append(ch);
      } else {
        inUse[len - 4] := true;
        Append(ch);
        Append(ch);
        Append(ch);
        Append(ch);
        Append(len - 4);
      }
    }

    /** add_pair_to_block: the run formed goes into the block. */
    method AddPair()
      requires Valid() && stateInCh != NO_CHAR && nblock + 5 <= block.Length
      modifies this`nblock, this`blockCRC, this`runs, block, inUse
      ensures inUse.Length == 256 && old(nblock) < nblock <= old(nblock) + 5 &&
        Filled(block[..nblock], inUse[..], runs, blockCRC)
      ensures runs == old(runs) + [Run(stateInCh, stateInLen)] && IsRuns(runs) && IsRuns(old(runs))
      ensures DataFrom(runs, 0) == DataFrom(old(runs), 0) + old(Waiting())
    {
      hide *;
      ValidParts();
      var ch := stateInCh;
      ghost var b, marks, crc := block[..nblock], inUse[..], blockCRC;
      FormingParts(runs, ch, stateInLen);
      PendingIs(ch, stateInLen);
      WaitingIs();
      RepeatOne(ch, stateInLen);
      blockCRC := UpdateRun(blockCRC, ch, stateInLen);
      PutRun(ch, stateInLen);
      OverRepeatIs(crc, ch, stateInLen);
      FilledMore(b, marks, inUse[..], runs, crc, Run(ch, stateInLen), blockCRC);
      runs := runs + [Run(ch, stateInLen)];
    }

    lemma ValidParts()
      requires Valid()
      ensures inUse.Length == 256 && 0 <= nblock <= block.Length && 0 <= stateInCh <= 256 && NO_CHAR == 256
      ensures Filled(block[..nblock], inUse[..], runs, blockCRC) && Forming(runs, stateInCh, stateInLen)
      ensures IsRuns(runs) && InBlock() == DataFrom(runs, 0)
    {
    }

    /** An empty block holds no data. */
    lemma EmptyBlock()
      requires Valid() && nblock == 0
      ensures InBlock() == []
    {
    }

    lemma NothingWaits()
      requires Valid() && stateInCh == NO_CHAR
      ensures Waiting() == []
    {
      WaitingIs();
      PendingNone(stateInLen);
    }

    lemma WaitingIs()
      requires Valid()
      ensures 0 <= stateInCh <= 256 && (stateInCh == NO_CHAR || stateInLen >= 1) &&
        Waiting() == Pending(stateInCh, stateInLen)
    {
      FormingAlone(runs, stateInCh, stateInLen);
    }

    lemma ValidIntro()
      requires inUse.Length == 256 && 0 <= nblock <= block.Length && 0 <= stateInCh <= 256
      requires Filled(block[..nblock], inUse[..], runs, blockCRC) && Forming(runs, stateInCh, stateInLen)
      ensures Valid() && IsRuns(runs) && InBlock() == DataFrom(runs, 0)
    {
    }

    /** flush_RL: the waiting run is ended. */
    method FlushRL()
      requires Valid() && nblock + 5 <= block.Length
      modifies this, block, inUse
      ensures Valid() && InBlock() == old(InBlock()) + old(Waiting()) && Waiting() == [] && stateInCh == NO_CHAR
      ensures old(nblock) <= nblock <= old(nblock) + 5
    {
      hide *;
      ValidParts();
      WaitingIs();
      ghost var had := DataFrom(runs, 0);
      if stateInCh < 256 {
        AddPair();
      } else {
        PendingNone(stateInLen);
        DataAppend(had, [], []);
      }
      stateInCh, stateInLen := NO_CHAR, 0;
      FormingNone(runs);
      ValidIntro();
      WaitingIs();
      PendingNone(0);
    }

    /** ADD_CHAR_TO_BLOCK */
    method AddChar(z: int)
      requires Valid() && 0 <= z < 256 && nblock + 5 <= block.Length && (stateInCh == NO_CHAR ==> runs == [])
      modifies this, block, inUse
      ensures Valid() && InBlock() + Waiting() == old(InBlock()) + old(Waiting()) + [z] && stateInCh != NO_CHAR
      ensures old(nblock) <= nblock <= old(nblock) + 5
    {
      hide *;
      ValidParts();
      WaitingIs();
      ghost var had, wait, before := DataFrom(runs, 0), Waiting(), runs;
      ghost var ch0, len0 := stateInCh, stateInLen;
      RepeatOne(z, 0);
      if z != stateInCh && stateInLen == 1 {
        FormingSome(runs, stateInCh, stateInLen);
        AddShort();
        FormingNext(before, ch0, len0, z);
        stateInCh := z;
        PendingIs(z, 1);
        ValidIntro();
        WaitingIs();
      } else if z != stateInCh || stateInLen == 255 {
        if stateInCh < 256 {
          AddPair();
          FormingNext(before, ch0, len0, z);
        } else {
          FormingFirst(z, runs);
          PendingNone(stateInLen);
          DataAppend(had, [], [z]);
        }
        stateInCh := z;
        stateInLen := 1;
        PendingIs(z, 1);
        ValidIntro();
        WaitingIs();
      } else {
        FormingParts(runs, stateInCh, stateInLen);
        FormingMore(runs, stateInCh, stateInLen);
        stateInLen := stateInLen + 1;
        ValidIntro();
        WaitingIs();
        DataAppend(had, wait, [z]);
      }
    }

    /** The fast track: a single byte goes into the block. */
    method AddShort()
      requires Valid() && stateInCh != NO_CHAR && stateInLen == 1 && nblock < block.Length
      modifies this`nblock, this`blockCRC, this`runs, block, inUse
      ensures inUse.Length == 256 && nblock == old(nblock) + 1 && Filled(block[..nblock], inUse[..], runs, blockCRC)
      ensures runs == old(runs) + [Run(stateInCh, stateInLen)] && IsRuns(runs) && IsRuns(old(runs))
      ensures DataFrom(runs, 0) == DataFrom(old(runs), 0) + old(Waiting())
    {
      hide *;
      ValidParts();
      var ch := stateInCh;
      ghost var b, marks, crc := block[..nblock], inUse[..], blockCRC;
      FormingParts(runs, ch, stateInLen);
      PendingIs(ch, stateInLen);
      WaitingIs();
      RepeatOne(ch, 0);
      RepeatOne(ch, 1);
      BlockCrc.OverOne(crc, [], ch);
      assert [] + [ch] == [ch];
      blockCRC := BlockCrc.Update(blockCRC, BlockCrc.ByteWord(ch));
      RunPacked(ch, stateInLen);
      MarkedIs(ch, stateInLen);
      inUse[stateInCh] := true;
      assert inUse[..] == marks[ch := true];
      ghost var marks1 := inUse[..];
      Append(ch);
      assert inUse[..] == marks1;
      FilledMore(b, marks, inUse[..], runs, crc, Run(ch, stateInLen), blockCRC);
      runs := runs + [Run(ch, stateInLen)];
    }
  }

  lemma PendingNone(len: int)
    ensures Pending(NO_CHAR, len) == []
  {
  }

  lemma FormingNone(runs: seq<Run>)
    ensures Forming(runs, NO_CHAR, 0)
  {
  }

  lemma FormingSome(runs: seq<Run>, ch: int, len: int)
    requires Forming(runs, ch, len) && len == 1
    ensures ch != NO_CHAR
  {
  }

  ghost function OverRepeat(crc: bv32, ch: int, n: nat): (c: bv32)
    requires 0 <= ch < 256
  {
    BlockCrc.Over(crc, Repeat(ch, n))
  }

  lemma OverRepeatStep(crc: bv32, ch: int, n: nat)
    requires 0 <= ch < 256
    ensures OverRepeat(crc, ch, n + 1) == BlockCrc.Update(OverRepeat(crc, ch, n), BlockCrc.ByteWord(ch)) &&
      OverRepeat(crc, ch, 0) == crc
  {
    hide BlockCrc.Update;
    hide BlockCrc.ByteWord;
    RepeatOne(ch, n);
    BlockCrc.OverOne(crc, Repeat(ch, n), ch);
  }

  lemma OverRepeatIs(crc: bv32, ch: int, n: nat)
    requires 0 <= ch < 256
    ensures AreBytes(Repeat(ch, n)) && OverRepeat(crc, ch, n) == BlockCrc.Over(crc, Repeat(ch, n))
  {
  }
}
