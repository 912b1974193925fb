/** bzlib.c, the compressor as a caller sees it: BZ2_bzCompress, handle_compress and what they call,
    for any sequence of calls and any sizes of the input and output buffers. */
module Compressor {
  import opened ByteSeq
  import opened Bits
  import opened BitIO
  import opened BlockFormat
  import opened BlockEncoder
  import opened BlockBuilder
  import opened RunLength
  import opened StreamFormat
  import BlockCrc
  import BlockWriter
  import Counting

  datatype Mode = Idle | Running | Flushing | Finishing
  datatype State = Output | Input
  datatype Action = RUN | FLUSH | FINISH
  datatype Code = RunOk | FlushOk | FinishOk | StreamEnd | SequenceError | ParamError

  /** As full as a block gets before it is written: one more run may not fit. */
  ghost predicate Full(level: nat, p: Piece) {
    IsRuns(p.runs) && |PackFrom(p.runs, 0)| >= 100000 * level - 19
  }

  /** The blocks are coded with the tables chosen for them, and are full, but for those closed by a flush or by the
      end of the input. */
  ghost predicate Dense(level: nat, ps: seq<Piece>, cuts: set<int>) {
    (forall j {:trigger ps[j]} :: 0 <= j < |ps| ==> Made(level, ps[j], j in cuts)) &&
    forall j :: j in cuts ==> 0 <= j < |ps|
  }

  ghost predicate Made(level: nat, p: Piece, cut: bool) {
    IsRuns(p.runs) && Fitted(p.c, p.n, PackFrom(p.runs, 0)) && (cut || Full(level, p))
  }

  /** Only the last of n blocks may have been cut off since. */
  ghost predicate OneCut(before: set<int>, after: set<int>, n: nat) {
    after == before || (n > 0 && after == before + {n - 1})
  }

  lemma OneCutIs(before: set<int>, n: nat)
    ensures OneCut(before, before, n) && (n > 0 ==> OneCut(before, before + {n - 1}, n))
  {
  }

  lemma DenseMore(level: nat, ps: seq<Piece>, cuts: set<int>, p: Piece, cut: bool)
    requires Dense(level, ps, cuts) && Made(level, p, cut)
    ensures Dense(level, ps + [p], if cut then cuts + {|ps|} else cuts)
  {
    hide Made;
    var ps', cuts' := ps + [p], if cut then cuts + {|ps|} else cuts;
    forall j {:trigger ps'[j]} | 0 <= j < |ps'| ensures Made(level, ps'[j], j in cuts') {
      if j < |ps| { assert ps'[j] == ps[j]; }
    }
  }

  lemma MadeIntro(level: nat, p: Piece, cut: bool)
    requires IsRuns(p.runs) && Fitted(p.c, p.n, PackFrom(p.runs, 0)) &&
      (cut || |PackFrom(p.runs, 0)| >= 100000 * level - 19)
    ensures Made(level, p, cut)
  {
    hide Fitted;
    hide PackFrom;
    hide IsRuns;
  }

  /** The bits written so far are those of blocks ps. Nothing is written before the first block. */
  ghost predicate Writing(level: nat, ps: seq<Piece>, cuts: set<int>, begun: bool, written: seq<int>, combined: bv32) {
    AllSane(ps) && Dense(level, ps, cuts) &&
    if begun then Begun(level, ps, written) && combined == BlockCrc.Combined(Crcs(ps))
    else written == [] && ps == [] && combined == 0
  }

  /** All input taken is in the blocks written or in rest. */
  ghost predicate Accounted(ps: seq<Piece>, consumed: seq<int>, rest: seq<int>) {
    AllSane(ps) && consumed == DataOf(ps, |ps|) + rest
  }

  /** The output is a whole stream for ps: header, blocks, trailer with the combined checksum of the blocks, zero
      bits to fill the last byte. */
  ghost predicate Complete(level: nat, ps: seq<Piece>, cuts: set<int>, bytes: seq<int>) {
    AllSane(ps) && AllFit(level, ps) && Dense(level, ps, cuts) && AreBytes(bytes) && exists k ::
    0 <= k < 8 && BytesBits(bytes) == Whole(level, ps, Crcs(ps), BlockCrc.Combined(Crcs(ps)), BitsOf(0, k))
  }

  /** The output is only the beginning: of a whole stream for the data, or of one that goes on after blocks ps, which
      hold the first part of the data. */
  ghost predicate Unfinished(level: nat, ps: seq<Piece>, cuts: set<int>, output: seq<int>, data: seq<int>) {
    AllSane(ps) && Dense(level, ps, cuts) && DataOf(ps, |ps|) <= data &&
    (Whole1(level, ps, cuts, output, data) || Part1(level, ps, output))
  }

  ghost predicate Whole1(level: nat, ps: seq<Piece>, cuts: set<int>, output: seq<int>, data: seq<int>)
    requires AllSane(ps)
  {
    data == DataOf(ps, |ps|) && exists full :: Complete(level, ps, cuts, full) && output < full
  }

  ghost predicate Part1(level: nat, ps: seq<Piece>, output: seq<int>) {
    exists bytes, written :: Begun(level, ps, written) && AreBytes(bytes) && output <= bytes && Starts(bytes, written)
  }

  /** The bytes are the first bits written. */
  ghost predicate Starts(bytes: seq<int>, written: seq<int>)
    requires AreBytes(bytes)
  {
    BytesBits(bytes) <= written
  }

  lemma UnfinishedIntro(level: nat, ps: seq<Piece>, cuts: set<int>, output: seq<int>, bytes: seq<int>,
      written: seq<int>, combined: bv32, consumed: seq<int>, rest: seq<int>, input: seq<int>)
    requires Writing(level, ps, cuts, true, written, combined) && Accounted(ps, consumed, rest)
    requires output <= bytes && AreBytes(bytes) && BytesBits(bytes) <= written
    ensures Unfinished(level, ps, cuts, output, consumed + input)
  {
    hide AllSane;
    hide Dense;
    hide Begun;
    hide Whole1;
    hide DataOf;
    hide BytesBits;
    WritingBegun(level, ps, cuts, written, combined);
    assert Starts(bytes, written);
    assert consumed + input == DataOf(ps, |ps|) + (rest + input);
  }

  lemma UnfinishedEnd(level: nat, ps: seq<Piece>, cuts: set<int>, output: seq<int>, full: seq<int>,
      consumed: seq<int>, rest: seq<int>, input: seq<int>)
    requires Complete(level, ps, cuts, full) && Accounted(ps, consumed, rest) && rest == [] && input == []
    requires output < full
    ensures Unfinished(level, ps, cuts, output, consumed + input)
  {
    hide Dense;
    hide Part1;
    hide DataOf;
    hide Whole;
    hide AllSane;
    hide AllFit;
    assert consumed + input == DataOf(ps, |ps|);
  }

  /* ---------- steps ---------- */

  lemma WritingStart(level: nat)
    ensures Writing(level, [], {}, false, [], 0) && Accounted([], [], []) && DataOf([], 0) == []
  {
  }

  lemma WritingHeader(level: nat, ps: seq<Piece>, cuts: set<int>, written: seq<int>, combined: bv32)
    requires Writing(level, ps, cuts, false, written, combined)
    ensures written == [] && ps == [] && combined == 0 && Writing(level, ps, cuts, true, StreamHeader(level, []), 0)
  {
    hide StreamHeader;
    BlockCrc.CombinedNone();
    assert Crcs([]) == [];
  }

  /** A block whose bits have just been written. */
  ghost predicate Fresh(level: nat, p: Piece, cut: bool, crc: bv32, d: seq<int>, before: seq<int>, after: seq<int>) {
    IsRuns(p.runs) && Sound(p.c, p.n + 2) && |p.codes| == |p.c.selectors| && Sane(p) && Fits(level, p) &&
    Made(level, p, cut) && crc == CrcOf(p) && d == DataFrom(p.runs, 0) &&
    after == before + PieceBits(p, BlockCrc.Number(crc), [])
  }

  lemma FreshParts(level: nat, p: Piece, cut: bool, crc: bv32, d: seq<int>, before: seq<int>, after: seq<int>)
    requires Fresh(level, p, cut, crc, d, before, after)
    ensures IsRuns(p.runs) && Sound(p.c, p.n + 2) && |p.codes| == |p.c.selectors| && Sane(p) && Fits(level, p)
    ensures Made(level, p, cut) && crc == CrcOf(p) && d == DataFrom(p.runs, 0)
    ensures after == before + PieceBits(p, BlockCrc.Number(CrcOf(p)), [])
  {
    hide IsRuns;
    hide Sound;
    hide Sane;
    hide Fits;
    hide Made;
    hide CrcOf;
    hide DataFrom;
    hide PieceBits;
  }

  /** A block is written. */
  lemma WritingBlock(level: nat, ps: seq<Piece>, cuts: set<int>, p: Piece, cut: bool, before: seq<int>,
      after: seq<int>, combined: bv32, crc: bv32, d: seq<int>, consumed: seq<int>, rest: seq<int>)
    requires Writing(level, ps, cuts, true, before, combined) && Fresh(level, p, cut, crc, d, before, after)
    requires Accounted(ps, consumed, d + rest)
    ensures Accounted(ps + [p], consumed, rest)
    ensures Writing(level, ps + [p], if cut then cuts + {|ps|} else cuts, true, after, BlockCrc.Combine(combined, crc))
  {
    hide *;
    FreshParts(level, p, cut, crc, d, before, after);
    WritingBegun(level, ps, cuts, before, combined);
    DenseMore(level, ps, cuts, p, cut);
    BegunMore(level, ps, p, before, after);
    BegunSane(level, ps + [p], after);
    AccountedMore(ps, p, consumed, rest);
    assert |ps + [p]| == |ps| + 1;
    BegunWriting(level, ps + [p], if cut then cuts + {|ps|} else cuts, after, BlockCrc.Combine(combined, crc));
  }

  lemma WritingBegun(level: nat, ps: seq<Piece>, cuts: set<int>, written: seq<int>, combined: bv32)
    requires Writing(level, ps, cuts, true, written, combined)
    ensures AllSane(ps) && Begun(level, ps, written) && combined == BlockCrc.Combined(Crcs(ps)) &&
      Dense(level, ps, cuts)
  {
    hide AllSane;
    hide Dense;
    hide Begun;
    hide BlockCrc.Combined;
  }

  lemma BegunSane(level: nat, ps: seq<Piece>, written: seq<int>)
    requires Begun(level, ps, written)
    ensures AllSane(ps)
  {
  }

  lemma BegunWriting(level: nat, ps: seq<Piece>, cuts: set<int>, written: seq<int>, combined: bv32)
    requires Begun(level, ps, written) && AllSane(ps) && combined == BlockCrc.Combined(Crcs(ps)) &&
      Dense(level, ps, cuts)
    ensures Writing(level, ps, cuts, true, written, combined)
  {
    hide AllSane;
    hide Dense;
    hide Begun;
    hide BlockCrc.Combined;
  }

  lemma AccountedMore(ps: seq<Piece>, p: Piece, consumed: seq<int>, rest: seq<int>)
    requires IsRuns(p.runs) && AllSane(ps) && AllSane(ps + [p]) && Accounted(ps, consumed, DataFrom(p.runs, 0) + rest)
    requires DataOf(ps + [p], |ps| + 1) == DataOf(ps, |ps|) + DataFrom(p.runs, 0)
    ensures Accounted(ps + [p], consumed, rest)
  {
    hide AllSane;
    hide DataOf;
    hide DataFrom;
    var d, e := DataOf(ps, |ps|), DataFrom(p.runs, 0);
    assert d + (e + rest) == d + e + rest;
  }

  /** An empty block adds nothing. */
  lemma AccountedNothing(ps: seq<Piece>, consumed: seq<int>, d: seq<int>, rest: seq<int>)
    requires Accounted(ps, consumed, d + rest) && d == []
    ensures Accounted(ps, consumed, rest)
  {
    assert d + rest == rest;
  }

  lemma PieceIntro(level: nat, p: Piece, cut: bool, before: seq<int>, after: seq<int>, crc: bv32)
    requires IsRuns(p.runs) && Encodes(p.c, p.n, p.origPtr, PackFrom(p.runs, 0))
    requires crc == BlockCrc.Over(BlockCrc.INITIAL, DataFrom(p.runs, 0))
    requires Appended(before, after, BlockCrc.Number(BlockCrc.Finalise(crc)), p.origPtr, p.c, p.codes, p.n + 2)
    requires Fits(level, p) && Made(level, p, cut)
    ensures Fresh(level, p, cut, BlockCrc.Finalise(crc), DataFrom(p.runs, 0), before, after)
  {
    hide Fits;
    hide Made;
    hide IsRuns;
    hide DataFrom;
    hide Encodes;
    hide Block;
    hide PackFrom;
    hide BlockCrc.Over;
    hide BlockCrc.Finalise;
    hide BlockCrc.Number;
    hide Sound;
    assert Sound(p.c, p.n + 2);
  }

  lemma CompleteIntro(level: nat, ps: seq<Piece>, cuts: set<int>, before: seq<int>, combined: bv32, bytes: seq<int>,
      k: nat)
    requires Writing(level, ps, cuts, true, before, combined) && k < 8 && AreBytes(bytes)
    requires BytesBits(bytes) == before + Trailer(combined, []) + BitsOf(0, k)
    ensures Complete(level, ps, cuts, bytes)
  {
    hide Trailer;
    hide Whole;
    hide BlockCrc.Combined;
    hide Crcs;
    hide Dense;
    WholeDone(level, ps, combined, before, BitsOf(0, k));
  }

  /* ---------- writing header and trailer ---------- */

  lemma StreamHeaderIs(level: nat, k: seq<int>)
    ensures StreamHeader(level, k) == Put(0x42, 8, Put(0x5a, 8, Put(0x68, 8, Put(0x30 + level, 8, k))))
  {
  }

  lemma TrailerIs(combined: bv32, k: seq<int>)
    ensures Trailer(combined, k) ==
      Put(0x17, 8,
      Put(0x72, 8, Put(0x45, 8, Put(0x38, 8, Put(0x50, 8, Put(0x90, 8, Word(BlockCrc.Number(combined), k)))))))
  {
  }

  method WriteStreamHeader(w: BitWriter, blockSize100k: nat)
    requires w.Valid() && 1 <= blockSize100k <= 9 && w.Written() == []
    modifies w`zbits, w`bsBuff, w`bsLive
    ensures w.Valid() && w.Written() == StreamHeader(blockSize100k, [])
  {
    hide *;
    BlockWriter.Pow2Small();
    ghost var all := StreamHeader(blockSize100k, []);
    StreamHeaderIs(blockSize100k, []);
    NothingSent(all);
    PutBits(w, 8, 0x42, Put(0x5a, 8, Put(0x68, 8, Put(0x30 + blockSize100k, 8, []))), all);
    PutBits(w, 8, 0x5a, Put(0x68, 8, Put(0x30 + blockSize100k, 8, [])), all);
    PutBits(w, 8, 0x68, Put(0x30 + blockSize100k, 8, []), all);
    PutBits(w, 8, 0x30 + blockSize100k, [], all);
    SentEnd(w.Written(), all);
  }

  lemma NothingSent(all: seq<int>)
    ensures Sent([], all, all)
  {
    assert [] + all == all;
  }

  method WriteTrailer(w: BitWriter, combinedCRC: bv32)
    requires w.Valid()
    modifies w`zbits, w`bsBuff, w`bsLive
    ensures w.Valid() && w.Written() == old(w.Written()) + Trailer(combinedCRC, [])
  {
    hide *;
    BlockWriter.Pow2Small();
    ghost var t := Trailer(combinedCRC, []);
    ghost var all := w.Written() + t;
    ghost var word := Word(BlockCrc.Number(combinedCRC), []);
    SentStart(w.Written(), t);
    TrailerIs(combinedCRC, []);
    PutBits(w, 8, 0x17, Put(0x72, 8, Put(0x45, 8, Put(0x38, 8, Put(0x50, 8, Put(0x90, 8, word))))), all);
    PutBits(w, 8, 0x72, Put(0x45, 8, Put(0x38, 8, Put(0x50, 8, Put(0x90, 8, word)))), all);
    PutBits(w, 8, 0x45, Put(0x38, 8, Put(0x50, 8, Put(0x90, 8, word))), all);
    PutBits(w, 8, 0x38, Put(0x50, 8, Put(0x90, 8, word)), all);
    PutBits(w, 8, 0x50, Put(0x90, 8, word), all);
    PutBits(w, 8, 0x90, word, all);
    BlockWriter.PutUInt32(w, BlockCrc.Number(combinedCRC), [], all);
    SentEnd(w.Written(), all);
  }

  /* ---------- the state ---------- */

  class Compressor {
    // bz_stream: input offered, room for output, and everything output so far
    var input: seq<int>
    var availOut: nat
    var output: seq<int>

    // EState
    var mode: Mode
    var state: State
    var availInExpect: nat
    const builder: Builder
    const w: BitWriter
    var combinedCRC: bv32
    var blockNo: nat
    const blockSize100k: nat
    const nblockMAX: nat
    const workFactor: int
    var stateOutPos: nat

    ghost var consumed: seq<int>
    ghost var ps: seq<Piece>
    ghost var cuts: set<int>  // of these blocks, those closed by a flush or finish
    ghost var begun: bool
    ghost var finished: bool

    /** Sizes. */
    ghost predicate Sized()
      reads this
    {
      1 <= blockSize100k <= 9 && nblockMAX == 100000 * blockSize100k - 19 &&
      builder.block.Length == 100000 * blockSize100k && AreBytes(input)
    }

    /** A block is being collected. */
    ghost predicate Loaded()
      reads this, builder, builder.block, builder.inUse, w
    {
      Sized() && builder.Valid() && w.Valid() && !finished && !mode.Idle? && w.zbits == [] && stateOutPos == 0 &&
      output == w.gone &&
      blockNo >= 1 && (begun <==> blockNo > 1) && Writing(blockSize100k, ps, cuts, begun, w.Written(), combinedCRC) &&
      Accounted(ps, consumed, builder.InBlock() + builder.Waiting())
    }

    /** And its last run has not been ended. */
    ghost predicate Collecting()
      reads this, builder, builder.block, builder.inUse, w
    {
      Loaded() && (builder.stateInCh == NO_CHAR ==> builder.runs == [])
    }

    /** Passing on what has been written. */
    ghost predicate Emitting()
      reads this, builder, builder.block, builder.inUse, w
    {
      Sized() && builder.Valid() && stateOutPos <= |w.zbits| && output == w.gone + w.zbits[..stateOutPos] &&
      blockNo >= 1 && begun &&
      Accounted(ps, consumed, builder.Waiting()) &&
      (finished ==>
      Complete(blockSize100k, ps, cuts, w.gone + w.zbits) && builder.stateInCh == NO_CHAR && builder.Waiting() == []) &&
      (finished ==> availInExpect == 0 && (mode.Finishing? || mode.Idle?)) &&
      (!finished ==> !mode.Idle? && w.Valid() && Writing(blockSize100k, ps, cuts, true, w.Written(), combinedCRC)) &&
      (!finished && builder.stateInCh == NO_CHAR ==> mode.Flushing? && availInExpect == 0)
    }

    ghost predicate Valid()
      reads this, builder, builder.block, builder.inUse, w
    {
      match state
      case Input => Collecting() && builder.nblock < nblockMAX
      case Output => Emitting()
    }

    /** BZ2_bzCompressInit */
    constructor (blockSize100k: nat, workFactor: int)
      requires 1 <= blockSize100k <= 9
      ensures Valid() && mode.Running? && state.Input? && consumed == [] && output == [] && input == [] &&
        cuts == {} && this.blockSize100k == blockSize100k
      ensures fresh(builder) && fresh(builder.block) && fresh(builder.inUse) && fresh(w)
    {
      hide *;
      this.blockSize100k, this.workFactor := blockSize100k, workFactor;
      nblockMAX := 100000 * blockSize100k - 19;
      input, availOut, output := [], 0, [];
      mode, state, availInExpect := Running, Input, 0;
      builder := new Builder(100000 * blockSize100k);
      w := new BitWriter();
      combinedCRC, blockNo, stateOutPos := 0, 1, 0;
      consumed, ps, cuts, begun, finished := [], [], {}, false, false;
      new;
      WritingStart(blockSize100k);
      AppendNone([], []);
      NoInput();
      SizedIntro();
      LoadedIntro();
      ValidIntro();
    }

    lemma ValidIntro()
      requires state.Input? ==> Collecting() && builder.nblock < nblockMAX
      requires state.Output? ==> Emitting()
      ensures Valid()
    {
      hide Collecting;
      hide Emitting;
    }

    lemma LoadedIntro()
      requires Sized() && builder.Valid() && w.Valid() && !finished && !mode.Idle? && w.zbits == [] &&
        stateOutPos == 0 && output == w.gone
      requires blockNo >= 1 && (begun <==> blockNo > 1) &&
        Writing(blockSize100k, ps, cuts, begun, w.Written(), combinedCRC)
      requires Accounted(ps, consumed, builder.InBlock() + builder.Waiting())
      ensures Loaded() && ((builder.stateInCh == NO_CHAR ==> builder.runs == []) ==> Collecting())
    {
      hide Builder.Valid;
      hide BitWriter.Valid;
      hide Writing;
      hide Accounted;
    }

    lemma LoadedParts()
      requires Loaded()
      ensures Sized() && builder.Valid() && w.Valid() && !finished && !mode.Idle? && w.zbits == [] &&
        stateOutPos == 0 && output == w.gone
      ensures blockNo >= 1 && (begun <==> blockNo > 1) &&
        Writing(blockSize100k, ps, cuts, begun, w.Written(), combinedCRC)
      ensures Accounted(ps, consumed, builder.InBlock() + builder.Waiting())
    {
      hide Builder.Valid;
      hide BitWriter.Valid;
      hide Writing;
      hide Accounted;
    }

    lemma CollectingParts()
      requires Collecting()
      ensures Loaded() && (builder.stateInCh == NO_CHAR ==> builder.runs == [])
    {
      hide Loaded;
    }

    lemma SizedParts()
      requires Sized()
      ensures 1 <= blockSize100k <= 9 && nblockMAX == 100000 * blockSize100k - 19 &&
        builder.block.Length == 100000 * blockSize100k && AreBytes(input)
    {
    }

    lemma EmittingIntro()
      requires Sized() && builder.Valid() && stateOutPos <= |w.zbits| && output == w.gone + w.zbits[..stateOutPos] &&
        blockNo >= 1 && begun
      requires Accounted(ps, consumed, builder.Waiting())
      requires finished ==>
        Complete(blockSize100k, ps, cuts, w.gone + w.zbits) && builder.stateInCh == NO_CHAR &&
        builder.Waiting() == [] &&
                            availInExpect == 0 && (mode.Finishing? || mode.Idle?)
      requires !finished ==>
        !mode.Idle? && w.Valid() && Writing(blockSize100k, ps, cuts, true, w.Written(), combinedCRC) &&
                             (builder.stateInCh == NO_CHAR ==> mode.Flushing? && availInExpect == 0)
      ensures Emitting()
    {
      hide Builder.Valid;
      hide BitWriter.Valid;
      hide Writing;
      hide Accounted;
      hide Complete;
    }

    lemma EmittingParts()
      requires Emitting()
      ensures Sized() && builder.Valid() && stateOutPos <= |w.zbits| && output == w.gone + w.zbits[..stateOutPos] &&
        blockNo >= 1 && begun
      ensures Accounted(ps, consumed, builder.Waiting())
      ensures finished ==>
        Complete(blockSize100k, ps, cuts, w.gone + w.zbits) && builder.stateInCh == NO_CHAR &&
        builder.Waiting() == [] &&
                           availInExpect == 0 && (mode.Finishing? || mode.Idle?)
      ensures !finished ==>
        !mode.Idle? && w.Valid() && Writing(blockSize100k, ps, cuts, true, w.Written(), combinedCRC) &&
                            (builder.stateInCh == NO_CHAR ==> mode.Flushing? && availInExpect == 0)
    {
      hide Builder.Valid;
      hide BitWriter.Valid;
      hide Writing;
      hide Accounted;
      hide Complete;
    }

    /** The header is written, and the blocks ps. */
    ghost predicate Open()
      reads this, w
    {
      1 <= blockSize100k <= 9 && w.Valid() && Writing(blockSize100k, ps, cuts, true, w.Written(), combinedCRC)
    }

    lemma OpenIntro()
      requires 1 <= blockSize100k <= 9 && w.Valid() && Writing(blockSize100k, ps, cuts, true, w.Written(), combinedCRC)
      ensures Open()
    {
      hide Writing;
      hide BitWriter.Valid;
    }

    lemma OpenParts()
      requires Open()
      ensures 1 <= blockSize100k <= 9 && w.Valid() && Writing(blockSize100k, ps, cuts, true, w.Written(), combinedCRC)
    {
      hide Writing;
      hide BitWriter.Valid;
    }

    /** The stream header comes before the first block. */
    method BeginStream()
      requires 1 <= blockSize100k <= 9 && w.Valid() &&
        Writing(blockSize100k, ps, cuts, begun, w.Written(), combinedCRC) &&
        (begun <==> blockNo > 1) && blockNo >= 1
      modifies this`begun, w`zbits, w`bsBuff, w`bsLive
      ensures Open() && begun
    {
      hide *;
      if blockNo == 1 {
        WritingHeader(blockSize100k, ps, cuts, w.Written(), combinedCRC);
        WriteStreamHeader(w, blockSize100k);
        begun := true;
      }
      OpenIntro();
    }

    /** A block of at least one byte. */
    method WriteBlock(ghost cut: bool)
      requires Open() && builder.Valid() && 0 < builder.nblock <= 100000 * blockSize100k - 10 &&
        Accounted(ps, consumed, builder.InBlock() + builder.Waiting())
      requires cut || builder.nblock >= 100000 * blockSize100k - 19
      modifies this`combinedCRC, this`ps, this`cuts, w`zbits, w`bsBuff, w`bsLive
      ensures Open() && builder.Valid() && Accounted(ps, consumed, builder.Waiting())
      ensures |ps| == |old(ps)| + 1 && cuts == if cut then old(cuts) + {|old(ps)|} else old(cuts)
    {
      hide *;
      OpenParts();
      builder.ValidParts();
      ghost var runs, crc := builder.runs, builder.blockCRC;
      FilledFacts(builder.block[..builder.nblock], builder.inUse[..], runs, crc);
      FilledCrc(builder.block[..builder.nblock], builder.inUse[..], runs, crc);
      BytesKeys(builder.block[..builder.nblock]);
      var blockCRC := BlockCrc.Finalise(builder.blockCRC);
      ghost var before := w.Written();
      ghost var c, codes, n, origPtr := CompressPiece(blockCRC);
      ghost var p := Piece(runs, origPtr, c, codes, n);
      FitsIntro(blockSize100k, p);
      MadeIntro(blockSize100k, p, cut);
      PieceIntro(blockSize100k, p, cut, before, w.Written(), crc);
      WritingBlock(blockSize100k, ps, cuts, p, cut, before, w.Written(), combinedCRC, blockCRC, DataFrom(runs, 0),
        consumed, builder.Waiting());
      combinedCRC := BlockCrc.Combine(combinedCRC, blockCRC);
      cuts := if cut then cuts + {|ps|} else cuts;
      ps := ps + [p];
      OpenIntro();
    }

    method CompressPiece(blockCRC: bv32)
        returns (ghost c: Coded, ghost codes: seq<nat>, ghost n: nat, ghost origPtr: nat)
      requires w.Valid() && builder.Valid() && 0 < builder.nblock <= 900_000 &&
        builder.nblock <= builder.block.Length && builder.inUse.Length == 256
      requires IsRuns(builder.runs) && builder.block[..builder.nblock] == PackFrom(builder.runs, 0)
      requires Counting.Keys(builder.block[..builder.nblock], 256) &&
        Marks(builder.inUse[..], builder.block[..builder.nblock])
      modifies w`zbits, w`bsBuff, w`bsLive
      ensures w.Valid() && Encodes(c, n, origPtr, PackFrom(builder.runs, 0)) && Fitted(c, n, PackFrom(builder.runs, 0))
      ensures Appended(old(w.Written()), w.Written(), BlockCrc.Number(blockCRC), origPtr, c, codes, n + 2)
    {
      hide *;
      c, codes, n, origPtr :=
        CompressBlock(w, builder.block[..builder.nblock], builder.inUse, BlockCrc.Number(blockCRC), workFactor);
    }

    /** The end of the stream. */
    method EndStream()
      requires Open()
      modifies this`finished, w`zbits, w`bsBuff, w`bsLive
      ensures finished && Complete(blockSize100k, ps, cuts, w.gone + w.zbits)
    {
      hide *;
      OpenParts();
      ghost var before := w.Written();
      WriteTrailer(w, combinedCRC);
      ghost var k := w.Finish();
      finished := true;
      CompleteIntro(blockSize100k, ps, cuts, before, combinedCRC, w.gone + w.zbits, k);
    }

    /** BZ2_compressBlock: the block collected, if it is not empty, with what goes before the first
        and after the last. */
    method CompressCollected(isLast: bool, ghost cut: bool)
      requires cut || builder.nblock >= nblockMAX
      requires Loaded() && builder.nblock <= 100000 * blockSize100k - 10
      requires isLast ==>
        builder.stateInCh == NO_CHAR && builder.Waiting() == [] && availInExpect == 0 && mode.Finishing?
      requires !isLast && builder.stateInCh == NO_CHAR ==> mode.Flushing? && availInExpect == 0
      modifies this`combinedCRC, this`ps, this`cuts, this`begun, this`finished, w`zbits, w`bsBuff, w`bsLive
      ensures Emitting() && finished == isLast
      ensures OneCut(old(cuts), cuts, |ps|) && (!cut ==> cuts == old(cuts))
    {
      hide *;
      LoadedParts();
      OneCutIs(cuts, |ps|);
      OneCutIs(cuts, |ps| + 1);
      SizedParts();
      builder.ValidParts();
      BeginStream();
      if builder.nblock > 0 {
        WriteBlock(cut);
      } else {
        builder.EmptyBlock();
        AccountedNothing(ps, consumed, builder.InBlock(), builder.Waiting());
      }
      OpenParts();
      if isLast {
        EndStream();
      }
      AppendNone(w.gone, w.zbits[..0]);
      SizedIntro();
      EmittingIntro();
    }

    /** prepare_new_block, once the output of the last block is gone. */
    method PrepareNewBlock()
      requires Emitting() && !finished && stateOutPos == |w.zbits|
      modifies this`stateOutPos, this`blockNo, builder, builder.inUse, w`zbits, w`gone
      ensures Collecting() && builder.nblock == 0 && builder.stateInCh == old(builder.stateInCh)
    {
      hide *;
      EmittingParts();
      SizedParts();
      assert w.zbits[..stateOutPos] == w.zbits;
      builder.PrepareNewBlock();
      w.Reset();
      stateOutPos := 0;
      blockNo := blockNo + 1;
      AppendNone2(builder.InBlock(), builder.Waiting());
      SizedIntro();
      LoadedIntro();
    }

    /** The next byte of input. */
    method TakeByte()
      requires Collecting() && input != [] && builder.nblock < nblockMAX
      modifies this`input, this`consumed, builder, builder.block, builder.inUse
      ensures Collecting() && builder.nblock <= nblockMAX + 4 && builder.stateInCh != NO_CHAR
      ensures |input| == |old(input)| - 1 && consumed + input == old(consumed + input)
    {
      hide *;
      CollectingParts();
      LoadedParts();
      SizedParts();
      InputByte(input);
      ghost var had, z := builder.InBlock() + builder.Waiting(), input[0];
      builder.AddChar(input[0]);
      AccountedByte(ps, consumed, had, builder.InBlock() + builder.Waiting(), z);
      assert consumed + input == consumed + [z] + input[1..];
      consumed := consumed + [z];
      input := input[1..];
      SizedIntro();
      LoadedIntro();
    }

    /** What remains to be taken before the flush or finish. */
    method Expect(n: nat)
      requires Collecting()
      modifies this`availInExpect
      ensures Collecting() && availInExpect == n
    {
      hide *;
      CollectingParts();
      LoadedParts();
      SizedParts();
      availInExpect := n;
      SizedIntro();
      LoadedIntro();
    }

    /** copy_input_until_stop */
    method CopyInput() returns (progress: bool)
      requires Collecting() && builder.nblock < nblockMAX
      modifies this`input, this`consumed, this`availInExpect, builder, builder.block, builder.inUse
      ensures Collecting() && builder.nblock <= nblockMAX + 4 && consumed + input == old(consumed + input)
      ensures |input| <= |old(input)| && (progress <==> |input| < |old(input)|) &&
        (progress ==> builder.stateInCh != NO_CHAR)
      ensures |input| == |old(input)| ==>
        builder.nblock == old(builder.nblock) && builder.stateInCh == old(builder.stateInCh)
      ensures builder.nblock >= nblockMAX || input == [] || (!mode.Running? && availInExpect == 0)
      ensures old(input) != [] && (mode.Running? || old(availInExpect) > 0) ==> progress
      ensures mode.Running? ==> availInExpect == old(availInExpect)
      ensures !mode.Running? && old(availInExpect == |input|) ==> availInExpect == |input|
    {
      hide *;
      progress := false;
      if mode.Running? {
        while true
          invariant Collecting() && builder.nblock <= nblockMAX + 4 && consumed + input == old(consumed + input)
          invariant |input| <= |old(input)| && (progress <==> |input| < |old(input)|) &&
            (progress ==> builder.stateInCh != NO_CHAR)
          invariant |input| == |old(input)| ==>
            builder.nblock == old(builder.nblock) && builder.stateInCh == old(builder.stateInCh)
          invariant availInExpect == old(availInExpect)
          decreases |input|
        {
          if builder.nblock >= nblockMAX { break; }
          if |input| == 0 { break; }
          progress := true;
          TakeByte();
        }
      } else {
        while true
          invariant Collecting() && builder.nblock <= nblockMAX + 4 && consumed + input == old(consumed + input)
          invariant |input| <= |old(input)| && (progress <==> |input| < |old(input)|) &&
            (progress ==> builder.stateInCh != NO_CHAR)
          invariant |input| == |old(input)| ==>
            builder.nblock == old(builder.nblock) && builder.stateInCh == old(builder.stateInCh)
          invariant old(availInExpect == |input|) ==> availInExpect == |input|
          invariant |input| == |old(input)| ==> availInExpect == old(availInExpect)
          decreases |input|
        {
          if builder.nblock >= nblockMAX { break; }
          if |input| == 0 { break; }
          if availInExpect == 0 { break; }
          progress := true;
          TakeByte();
          Expect(availInExpect - 1);
        }
      }
    }

    /** copy_output_until_stop */
    method CopyOutput() returns (progress: bool)
      requires Emitting()
      modifies this`output, this`stateOutPos, this`availOut
      ensures Emitting() && old(output) <= output && |output| - |old(output)| == old(availOut) - availOut
      ensures availOut == 0 || stateOutPos == |w.zbits|
      ensures progress <==> availOut < old(availOut)
    {
      hide *;
      EmittingParts();
      progress := false;
      while true
        invariant stateOutPos <= |w.zbits| && output == w.gone + w.zbits[..stateOutPos]
        invariant old(output) <= output && |output| - |old(output)| == old(availOut) - availOut &&
          (progress <==> availOut < old(availOut))
        decreases availOut
      {
        if availOut == 0 { break; }
        if stateOutPos >= |w.zbits| { break; }
        progress := true;
        PrefixNext(w.gone, w.zbits, stateOutPos);
        output := output + [w.zbits[stateOutPos]];
        stateOutPos := stateOutPos + 1;
        availOut := availOut - 1;
      }
      SizedKeep();
      EmittingIntro();
    }

    twostate lemma SizedKeep()
      requires old(Sized()) && old(input) == input
      ensures Sized()
    {
    }

    /** All input has been taken by a flush or finish: the block is closed. */
    method CloseBlock()
      requires Collecting() && builder.nblock <= nblockMAX + 4 && availInExpect == 0 &&
        (mode.Flushing? || mode.Finishing?)
      modifies this`combinedCRC, this`ps, this`cuts, this`begun, this`finished, builder, builder.block, builder.inUse,
        w`zbits,
        w`bsBuff, w`bsLive
      ensures Emitting() && (finished <==> mode.Finishing?) && builder.stateInCh == NO_CHAR
      ensures OneCut(old(cuts), cuts, |ps|)
    {
      hide *;
      CollectingParts();
      LoadedParts();
      SizedParts();
      ghost var d := builder.InBlock() + builder.Waiting();
      builder.FlushRL();
      AppendNone(builder.InBlock(), builder.Waiting());
      assert builder.InBlock() + builder.Waiting() == d;
      SizedIntro();
      LoadedIntro();
      CompressCollected(mode.Finishing?, true);
    }

    /** The state handle_compress works in. */
    ghost predicate Working()
      reads this, builder, builder.block, builder.inUse, w
    {
      Valid() && !mode.Idle? && (!mode.Running? ==> availInExpect == |input|)
    }

    lemma WorkingParts()
      requires Working()
      ensures !mode.Idle? && (!mode.Running? ==> availInExpect == |input|)
      ensures state.Input? ==> Collecting() && builder.nblock < nblockMAX
      ensures state.Output? ==>
        Emitting() && (finished ==> mode.Finishing?) &&
        (!finished && builder.stateInCh == NO_CHAR ==> mode.Flushing? && availInExpect == 0)
      ensures state.Output? && finished ==> builder.stateInCh == NO_CHAR && availInExpect == 0
    {
      hide Collecting;
      if state.Output? { EmittingParts(); }
    }

    lemma WorkingIntro()
      requires !mode.Idle? && (!mode.Running? ==> availInExpect == |input|)
      requires state.Input? ==> Collecting() && builder.nblock < nblockMAX
      requires state.Output? ==> Emitting()
      ensures Working()
    {
      hide Collecting;
      hide Emitting;
    }

    /** Change from collecting to emitting and back; nothing else depends on the field. */
    method Become(s: State)
      requires if s.Input? then Collecting() && builder.nblock < nblockMAX else Emitting()
      requires !mode.Idle? && (!mode.Running? ==> availInExpect == |input|)
      modifies this`state
      ensures Working() && state == s
    {
      hide *;
      if s.Input? {
        CollectingParts();
        LoadedParts();
        SizedParts();
      } else {
        EmittingParts();
        SizedParts();
      }
      state := s;
      SizedIntro();
      if s.Input? {
        LoadedIntro();
      } else {
        EmittingIntro();
      }
      WorkingIntro();
    }

    /** isempty_RL */
    predicate EmptyRL()
      reads this, builder
    {
      !(builder.stateInCh < 256 && builder.stateInLen > 0)
    }

    lemma EmptyRLIs()
      requires builder.Valid()
      ensures (EmptyRL() <==> builder.stateInCh == NO_CHAR) && (EmptyRL() ==> builder.Waiting() == [])
    {
      builder.WaitingIs();
      PendingNone(builder.stateInLen);
    }

    /** handle_compress while in the output state. */
    method StepOutput() returns (stop: bool, progress: bool)
      requires Working() && state.Output?
      modifies this`output, this`stateOutPos, this`availOut, this`blockNo, this`state, builder, builder.inUse, w`zbits,
        w`gone
      ensures Working() && old(output) <= output && |output| - |old(output)| == old(availOut) - availOut &&
        (progress <==> availOut < old(availOut))
      ensures builder.stateInCh == old(builder.stateInCh) && (!stop ==> state.Input? && builder.stateInCh != NO_CHAR)
      ensures stop && state.Output? ==>
        (stateOutPos < |w.zbits| && availOut == 0) || (finished && stateOutPos == |w.zbits|)
      ensures stop && state.Input? ==>
        mode.Flushing? && availInExpect == 0 && builder.nblock == 0 && builder.stateInCh == NO_CHAR
    {
      hide *;
      WorkingParts();
      stop := true;
      progress := CopyOutput();
      if stateOutPos < |w.zbits| {
        WorkingIntro();
        return;
      }
      EmittingParts();
      EmptyRLIs();
      if mode.Finishing? && availInExpect == 0 && EmptyRL() {
        WorkingIntro();
        return;
      }
      PrepareNewBlock();
      SizesAgain();
      Become(Input);
      WorkingParts();
      CollectingParts();
      LoadedParts();
      EmptyRLIs();
      if mode.Flushing? && availInExpect == 0 && EmptyRL() { return; }
      stop := false;
    }

    lemma SizesAgain()
      requires Collecting()
      ensures nblockMAX > 0
    {
      CollectingParts();
      LoadedParts();
    }

    /** handle_compress while in the input state. */
    method StepInput() returns (stop: bool, progress: bool)
      requires Working() && state.Input?
      modifies this`input, this`consumed, this`availInExpect, this`combinedCRC, this`ps, this`cuts, this`begun,
        this`finished,
        this`state,
               builder, builder.block, builder.inUse, w`zbits, w`bsBuff, w`bsLive
      ensures Working() && consumed + input == old(consumed + input) && |input| <= |old(input)| &&
        (progress <==> |input| < |old(input)|)
      ensures !stop ==> state.Output? && (|input| < |old(input)| || builder.stateInCh == NO_CHAR)
      ensures stop ==> state.Input? && mode.Running? && input == []
      ensures old(input) != [] ==> progress
      ensures cuts != old(cuts) ==> !mode.Running? && builder.stateInCh == NO_CHAR && state.Output?
      ensures OneCut(old(cuts), cuts, |ps|)
    {
      hide *;
      WorkingParts();
      OneCutIs(cuts, |ps|);
      stop := false;
      progress := CopyInput();
      CollectingParts();
      LoadedParts();
      SizedParts();
      if !mode.Running? && availInExpect == 0 {
        CloseBlock();
        Become(Output);
        } else if builder.nblock >= nblockMAX {
        CompressCollected(false, false);
        Become(Output);
        } else if |input| == 0 {
        WorkingIntro();
        stop := true;
      }
    }

    /** handle_compress */
    method HandleCompress() returns (progress: bool)
      requires Working()
      modifies this`input, this`consumed, this`availInExpect, this`combinedCRC, this`ps, this`cuts, this`begun,
        this`finished,
        this`state,
               this`output, this`stateOutPos, this`availOut, this`blockNo, builder, builder.block, builder.inUse, w
      ensures Working() && consumed + input == old(consumed + input) && old(output) <= output
      ensures |output| - |old(output)| == old(availOut) - availOut && |input| <= |old(input)|
      ensures progress <==> |input| < |old(input)| || availOut < old(availOut)
      ensures state.Output? ==> (stateOutPos < |w.zbits| && availOut == 0) || (finished && stateOutPos == |w.zbits|)
      ensures state.Input? ==>
        (mode.Running? && input == []) ||
        (mode.Flushing? && availInExpect == 0 && builder.nblock == 0 && builder.stateInCh == NO_CHAR)
      ensures old(state.Input?) && old(input) != [] ==> |input| < |old(input)|
      ensures OneCut(old(cuts), cuts, |ps|) && (mode.Running? ==> cuts == old(cuts))
    {
      hide *;
      OneCutIs(cuts, |ps|);
      var progressIn, progressOut, stop, p := false, false, false, false;
      while true
        invariant Working() && consumed + input == old(consumed + input) && old(output) <= output
        invariant |output| - |old(output)| == old(availOut) - availOut && |input| <= |old(input)|
        invariant (progressIn <==> |input| < |old(input)|) && (progressOut <==> availOut < old(availOut))
        invariant old(state.Input?) && old(input) != [] ==> |input| < |old(input)| || state.Input?
        invariant OneCut(old(cuts), cuts, |ps|)
        invariant cuts != old(cuts) ==> !mode.Running? && state.Output? && builder.stateInCh == NO_CHAR
        decreases |input|, if state.Output? && builder.stateInCh == NO_CHAR then 0 else 1
      {
        if state.Output? {
          stop, p := StepOutput();
          progressOut := progressOut || p;
              if stop { break; }
        }
        if state.Input? {
          stop, p := StepInput();
          progressIn := progressIn || p;
          if stop { break; }
        }
      }
      progress := progressIn || progressOut;
    }

    /** The caller offers input and room for output. */
    method SetBuffers(nextIn: seq<int>, room: nat)
      requires Valid() && AreBytes(nextIn)
      modifies this`input, this`availOut
      ensures Valid() && input == nextIn && availOut == room
    {
      hide *;
      ValidParts();
      input, availOut := nextIn, room;
      SizedIntro();
      if state.Input? { LoadedIntro(); } else { EmittingIntro(); }
      ValidIntro();
    }

    lemma ValidParts()
      requires Valid()
      ensures state.Input? ==> Collecting() && Loaded() && builder.nblock < nblockMAX
      ensures state.Output? ==> Emitting()
      ensures 1 <= blockSize100k <= 9 && nblockMAX == 100000 * blockSize100k - 19 &&
        builder.block.Length == 100000 * blockSize100k && AreBytes(input)
      ensures builder.Valid()
      ensures state.Input? ==>
        w.Valid() && !finished && !mode.Idle? && w.zbits == [] && stateOutPos == 0 && output == w.gone
      ensures state.Input? ==>
        blockNo >= 1 && (begun <==> blockNo > 1) && Writing(blockSize100k, ps, cuts, begun, w.Written(), combinedCRC)
      ensures state.Input? ==>
        Accounted(ps, consumed, builder.InBlock() + builder.Waiting()) &&
        (builder.stateInCh == NO_CHAR ==> builder.runs == [])
      ensures state.Output? ==>
        stateOutPos <= |w.zbits| && output == w.gone + w.zbits[..stateOutPos] && blockNo >= 1 && begun
      ensures state.Output? ==> Accounted(ps, consumed, builder.Waiting())
      ensures state.Output? && finished ==>
        Complete(blockSize100k, ps, cuts, w.gone + w.zbits) && builder.stateInCh == NO_CHAR && builder.Waiting() == []
      ensures state.Output? && finished ==> availInExpect == 0 && (mode.Finishing? || mode.Idle?)
      ensures state.Output? && !finished ==>
        !mode.Idle? && w.Valid() && Writing(blockSize100k, ps, cuts, true, w.Written(), combinedCRC)
      ensures state.Output? && !finished ==> builder.stateInCh == NO_CHAR ==> mode.Flushing? && availInExpect == 0
    {
      hide *;
      ValidSplit();
      if state.Input? {
        CollectingParts();
        LoadedParts();
      } else {
        EmittingParts();
      }
      SizedParts();
    }

    lemma ValidSplit()
      requires Valid()
      ensures state.Input? ==> Collecting() && builder.nblock < nblockMAX
      ensures state.Output? ==> Emitting()
    {
      hide Collecting;
      hide Emitting;
    }

    /** Enter another mode. */
    method SetMode(m: Mode, n: nat)
      requires Valid() && !m.Idle?
      requires state.Output? && finished ==> n == 0 && m.Finishing?
      requires state.Output? && !finished && builder.stateInCh == NO_CHAR ==> m.Flushing? && n == 0
      modifies this`mode, this`availInExpect
      ensures Valid() && mode == m && availInExpect == n
    {
      hide *;
      ValidParts();
      mode, availInExpect := m, n;
      SizedIntro();
      if state.Input? { LoadedIntro(); } else { EmittingIntro(); }
      ValidIntro();
    }

    /** All that has been taken in is in complete blocks, and every whole byte of them is out. */
    ghost predicate Flushed()
      reads this, builder, w
    {
      AllSane(ps) && consumed == DataOf(ps, |ps|) && output == w.gone
    }

    /** A call that does not fit the mode: after the end, or, while a flush or finish is under way, for
        anything else or with other input than what is left of it. */
    ghost predicate WrongCall(action: Action)
      reads this
    {
      match mode
      case Idle => true
      case Running => false
      case Flushing => !action.FLUSH? || availInExpect != |input|
      case Finishing => !action.FINISH? || availInExpect != |input|
    }

    lemma WrongCallIs(action: Action)
      ensures mode.Idle? ==> WrongCall(action)
      ensures mode.Running? ==> !WrongCall(action)
      ensures mode.Flushing? ==> (WrongCall(action) <==> !action.FLUSH? || availInExpect != |input|)
      ensures mode.Finishing? ==> (WrongCall(action) <==> !action.FINISH? || availInExpect != |input|)
    {
    }

    /** BZ2_bzCompress. Whatever the calls and the buffers, input and output are accounted for; at
        the end the output is a whole stream for exactly the input taken. */
    method Compress(action: Action) returns (code: Code)
      requires Valid()
      modifies this`mode, this`input, this`consumed, this`availInExpect, this`combinedCRC, this`ps, this`cuts,
        this`begun,
        this`finished, this`state,
               this`output, this`stateOutPos, this`availOut, this`blockNo, builder, builder.block, builder.inUse, w
      ensures Valid() && consumed + input == old(consumed + input) && old(output) <= output &&
        |output| - |old(output)| == old(availOut) - availOut
      ensures code.StreamEnd? ==>
        Complete(blockSize100k, ps, cuts, output) && Accounted(ps, consumed, []) && input == []
      // only a flush or finish closes a block that is not full, and only one
      ensures OneCut(old(cuts), cuts, |ps|) && (action.RUN? ==> cuts == old(cuts))
      ensures code.RunOk? && action.FLUSH? ==> Flushed() && input == [] && mode.Running?
      ensures code.FlushOk? || code.FinishOk? ==> availOut == 0
      ensures code.RunOk? && action.RUN? ==> input == [] || availOut == 0
      ensures code.FinishOk? ==> Unfinished(blockSize100k, ps, cuts, output, consumed + input)
      // a call for the wrong thing changes nothing
      ensures old(WrongCall(action)) ==> code.SequenceError? && input == old(input) && output == old(output)
      // another fails exactly if it could neither take input nor give output, and a flush never does
      ensures !old(WrongCall(action)) ==>
        ((code.SequenceError? || code.ParamError?) <==>
        !action.FLUSH? && |input| == |old(input)| && availOut == old(availOut))
      ensures code.SequenceError? ==> old(WrongCall(action)) || action.FINISH?
      ensures code.ParamError? ==> action.RUN?
      ensures code.StreamEnd? || code.FinishOk? ==> action.FINISH?
      ensures code.FlushOk? ==> action.FLUSH?
      ensures code.RunOk? ==> !action.FINISH?
      ensures action.FINISH? && code.SequenceError? && !old(WrongCall(action)) ==>
        (availOut == 0 || Complete(blockSize100k, ps, cuts, output)) && (old(state.Input?) ==> input == [])
    {
      hide *;
      ValidParts();
      WrongCallIs(action);
      OneCutIs(cuts, |ps|);
      if mode.Idle? { return SequenceError; }
      if mode.Running? {
        if action.RUN? {
          var progress := RunStep();
          return if progress then RunOk else ParamError;
        } else if action.FLUSH? {
          SetMode(Flushing, |input|);
        } else {
          SetMode(Finishing, |input|);
        }
        ValidParts();
      }
      if mode.Flushing? {
        if !action.FLUSH? { return SequenceError; }
        if availInExpect != |input| { return SequenceError; }
        code := Flush();
      } else {
        if !action.FINISH? { return SequenceError; }
        if availInExpect != |input| { return SequenceError; }
        code := Finish();
      }
    }

    /** A call in the flushing mode. */
    method Flush() returns (code: Code)
      requires Valid() && mode.Flushing? && availInExpect == |input|
      modifies this`mode, this`input, this`consumed, this`availInExpect, this`combinedCRC, this`ps, this`cuts,
        this`begun,
        this`finished, this`state,
               this`output, this`stateOutPos, this`availOut, this`blockNo, builder, builder.block, builder.inUse, w
      ensures Valid() && consumed + input == old(consumed + input) && old(output) <= output &&
        |output| - |old(output)| == old(availOut) - availOut
      ensures code.RunOk? || code.FlushOk?
      ensures code.RunOk? ==> Flushed() && input == [] && mode.Running?
      ensures code.FlushOk? ==> availOut == 0
      ensures OneCut(old(cuts), cuts, |ps|)
    {
      hide *;
      var progress := RunStep();
      ValidParts();
      EmptyRLIs();
      if availInExpect > 0 || !EmptyRL() || stateOutPos < |w.zbits| { return FlushOk; }
      EndFlush();
      code := RunOk;
    }

    method EndFlush()
      requires Valid() && mode.Flushing? && state.Input? && builder.nblock == 0 && builder.stateInCh == NO_CHAR &&
        input == []
      modifies this`mode, this`availInExpect
      ensures Valid() && Flushed() && mode.Running?
    {
      hide *;
      ValidParts();
      EmptyRLIs();
      builder.NothingWaits();
      SetMode(Running, availInExpect);
      ValidParts();
      FlushedIntro();
    }

    /** A call in the finishing mode. */
    method Finish() returns (code: Code)
      requires Valid() && mode.Finishing? && availInExpect == |input|
      modifies this`mode, this`input, this`consumed, this`availInExpect, this`combinedCRC, this`ps, this`cuts,
        this`begun,
        this`finished, this`state,
               this`output, this`stateOutPos, this`availOut, this`blockNo, builder, builder.block, builder.inUse, w
      ensures Valid() && consumed + input == old(consumed + input) && old(output) <= output &&
        |output| - |old(output)| == old(availOut) - availOut
      ensures code.StreamEnd? || code.FinishOk? || code.SequenceError?
      ensures code.StreamEnd? ==>
        Complete(blockSize100k, ps, cuts, output) && Accounted(ps, consumed, []) && input == []
      ensures code.FinishOk? ==> availOut == 0 && Unfinished(blockSize100k, ps, cuts, output, consumed + input)
      ensures OneCut(old(cuts), cuts, |ps|)
      ensures code.SequenceError? <==> |input| == |old(input)| && availOut == old(availOut)
      ensures code.SequenceError? ==>
        (availOut == 0 || Complete(blockSize100k, ps, cuts, output)) && (old(state.Input?) ==> input == [])
    {
      hide *;
      var progress := RunStep();
      ValidParts();
      if state.Output? && stateOutPos == |w.zbits| { assert w.zbits[..stateOutPos] == w.zbits; }
      if !progress { return SequenceError; }
      EmptyRLIs();
      if availInExpect > 0 || !EmptyRL() || stateOutPos < |w.zbits| {
        StillComing();
        return FinishOk;
      }
      assert w.zbits[..stateOutPos] == w.zbits;
      Retire();
      code := StreamEnd;
    }

    /** What is out is not all. */
    lemma StillComing()
      requires Valid() && state.Output? && (finished ==> stateOutPos < |w.zbits| && input == [])
      ensures Unfinished(blockSize100k, ps, cuts, output, consumed + input)
    {
      hide *;
      ValidParts();
      var bytes := w.gone + w.zbits;
      assert output == w.gone + w.zbits[..stateOutPos];
      assert output == bytes[..|w.gone| + stateOutPos];
      if finished {
        UnfinishedEnd(blockSize100k, ps, cuts, output, bytes, consumed, builder.Waiting(), input);
      } else {
        w.BytesWritten();
        UnfinishedIntro(blockSize100k, ps, cuts, output, bytes, w.Written(), combinedCRC, consumed, builder.Waiting(),
          input);
      }
    }

    /** handle_compress, with what the modes add. */
    method RunStep() returns (progress: bool)
      requires Valid() && !mode.Idle? && (!mode.Running? ==> availInExpect == |input|)
      modifies this`input, this`consumed, this`availInExpect, this`combinedCRC, this`ps, this`cuts, this`begun,
        this`finished,
        this`state,
               this`output, this`stateOutPos, this`availOut, this`blockNo, builder, builder.block, builder.inUse, w
      ensures Valid() && consumed + input == old(consumed + input) && old(output) <= output &&
        (!mode.Running? ==> availInExpect == |input|)
      ensures |output| - |old(output)| == old(availOut) - availOut && |input| <= |old(input)|
      ensures progress <==> |input| < |old(input)| || availOut < old(availOut)
      ensures state.Output? ==> (stateOutPos < |w.zbits| && availOut == 0) || (finished && stateOutPos == |w.zbits|)
      ensures state.Input? ==>
        (mode.Running? && input == []) ||
        (mode.Flushing? && availInExpect == 0 && builder.nblock == 0 && builder.stateInCh == NO_CHAR)
      ensures finished ==> !mode.Flushing? && !mode.Running?
      ensures old(state.Input?) && old(input) != [] ==> |input| < |old(input)|
      ensures OneCut(old(cuts), cuts, |ps|) && (mode.Running? ==> cuts == old(cuts))
    {
      hide *;
      ValidParts();
      WorkingIntro();
      progress := HandleCompress();
      WorkingParts();
      ValidIntro();
      ValidParts();
    }

    lemma FlushedIntro()
      requires builder.Valid() && Accounted(ps, consumed, builder.InBlock() + builder.Waiting()) &&
        builder.nblock == 0 && builder.Waiting() == []
      requires output == w.gone
      ensures Flushed()
    {
      hide *;
      builder.EmptyBlock();
      AppendNone2(builder.InBlock(), builder.Waiting());
      AccountedAll(ps, consumed);
      FlushedBy();
    }

    lemma FlushedBy()
      requires AllSane(ps) && consumed == DataOf(ps, |ps|) && output == w.gone
      ensures Flushed()
    {
      hide AllSane;
      hide DataOf;
    }

    /** The stream is complete: the compressor rests. */
    method Retire()
      requires Valid() && finished && state.Output?
      modifies this`mode
      ensures Valid()
    {
      hide *;
      ValidParts();
      mode := Idle;
      SizedIntro();
      EmittingIntro();
      ValidIntro();
    }

    lemma SizedIntro()
      requires 1 <= blockSize100k <= 9 && nblockMAX == 100000 * blockSize100k - 19 &&
        builder.block.Length == 100000 * blockSize100k && AreBytes(input)
      ensures Sized()
    {
    }
  }

  lemma FilledCrc(b: seq<int>, inUse: seq<bool>, runs: seq<Run>, crc: bv32)
    requires Filled(b, inUse, runs, crc) && IsRuns(runs)
    ensures crc == BlockCrc.Over(BlockCrc.INITIAL, DataFrom(runs, 0))
  {
  }

  lemma FitsIntro(level: nat, p: Piece)
    requires IsRuns(p.runs) && |PackFrom(p.runs, 0)| <= 100000 * level - 10
    ensures Fits(level, p)
  {
  }

  lemma BytesKeys(b: seq<int>)
    requires AreBytes(b)
    ensures Counting.Keys(b, 256)
  {
  }

  lemma AccountedAll(ps: seq<Piece>, consumed: seq<int>)
    requires Accounted(ps, consumed, [])
    ensures AllSane(ps) && consumed == DataOf(ps, |ps|)
  {
    hide AllSane;
    hide DataOf;
    assert DataOf(ps, |ps|) + [] == DataOf(ps, |ps|);
  }

  lemma NoInput()
    ensures AreBytes([])
  {
  }

  lemma InputByte(input: seq<int>)
    requires AreBytes(input) && input != []
    ensures 0 <= input[0] < 256 && AreBytes(input[1..])
  {
  }

  lemma AccountedByte(ps: seq<Piece>, consumed: seq<int>, rest: seq<int>, rest': seq<int>, z: int)
    requires Accounted(ps, consumed, rest) && rest' == rest + [z]
    ensures Accounted(ps, consumed + [z], rest')
  {
    hide AllSane;
    hide DataOf;
  }

  lemma PrefixNext(a: seq<int>, z: seq<int>, i: nat)
    requires i < |z|
    ensures a + z[..i] + [z[i]] == a + z[..i + 1]
  {
  }

  lemma AppendNone2(a: seq<int>, b: seq<int>)
    ensures a == [] ==> a + b == b
  {
  }

  lemma AppendNone(a: seq<int>, b: seq<int>)
    ensures b == [] ==> a + b == a
  {
  }
}
