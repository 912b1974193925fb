/** bzlib.c and decompress.c, the decompressor as a caller sees it: BZ2_bzDecompress, for any sizes of
    the output buffer. All input is at hand. Every method takes any input; for the bytes of a whole
    stream it is stated what comes out. */
module Decompressor {
  import opened ByteSeq
  import opened Counting
  import opened Bwt
  import opened BitIO
  import opened BlockFormat
  import opened BlockReader
  import opened BlockEncoder
  import opened BlockDecoder
  import opened RunLength
  import opened RunOutput
  import opened StreamFormat
  import BlockCrc
  import BlockWriter
  import InverseBwt
  import Bits

  datatype State = Idle | Output | Magic | BlockHeader
  datatype Code = Ok | StreamEnd | DataError | MagicError | SequenceError | MoreInput | Randomised

  /* ---------- what the input holds, part by part ---------- */

  /** Blocks from i on, the trailer, and k. */
  ghost function Tail(ps: seq<Piece>, crcs: seq<bv32>, combined: bv32, i: nat, k: seq<int>): (s: seq<int>)
    requires AllSane(ps) && |crcs| == |ps| && i <= |ps|
  {
    PiecesBits(ps, crcs, i, Trailer(combined, k))
  }

  ghost function TrailerRest(combined: nat, k: seq<int>): (s: seq<int>) {
    Put(0x72, 8, Put(0x45, 8, Put(0x38, 8, Put(0x50, 8, Put(0x90, 8, Word(combined, k))))))
  }

  lemma TrailerIs(combined: bv32, k: seq<int>)
    ensures Trailer(combined, k) == Put(0x17, 8, TrailerRest(BlockCrc.Number(combined), k))
  {
    hide Word;
    hide BlockCrc.Number;
  }

  lemma TrailerRestIs(combined: nat, k: seq<int>)
    ensures TrailerRest(combined, k) ==
      Put(0x72, 8, Put(0x45, 8, Put(0x38, 8, Put(0x50, 8, Put(0x90, 8, Word(combined, k))))))
  {
  }

  /** A block after its first byte. */
  ghost function BlockRest(p: Piece, crc: nat, k: seq<int>): (s: seq<int>)
    requires Sound(p.c, p.n + 2) && |p.codes| == |p.c.selectors|
  {
    HeaderRest(crc, p.origPtr, Body(p.c, p.codes, p.n + 2, k))
  }

  lemma TailEnd(ps: seq<Piece>, crcs: seq<bv32>, combined: bv32, k: seq<int>)
    requires AllSane(ps) && |crcs| == |ps|
    ensures Tail(ps, crcs, combined, |ps|, k) == Trailer(combined, k)
  {
    hide Sane;
    hide Trailer;
  }

  lemma SaneAt(ps: seq<Piece>, i: nat)
    requires AllSane(ps) && i < |ps|
    ensures Sane(ps[i])
  {
    hide Sane;
  }

  lemma TailBlock(ps: seq<Piece>, crcs: seq<bv32>, combined: bv32, i: nat, k: seq<int>, p: Piece, crc: nat)
    requires Sound(p.c, p.n + 2) && |p.codes| == |p.c.selectors|
    requires AllSane(ps) && |crcs| == |ps| && i < |ps| && p == ps[i] && crc == BlockCrc.Number(crcs[i])
    ensures Tail(ps, crcs, combined, i, k) == PieceBits(p, crc, Tail(ps, crcs, combined, i + 1, k))
  {
    hide AllSane;
    hide Sound;
    hide Trailer;
    hide PieceBits;
    hide BlockCrc.Number;
  }

  lemma PieceStart(p: Piece, crc: nat, k: seq<int>)
    requires Sound(p.c, p.n + 2) && |p.codes| == |p.c.selectors|
    ensures PieceBits(p, crc, k) == Put(0x31, 8, BlockRest(p, crc, k))
  {
    hide *;
    PieceIs(p, crc, k);
    BlockIs(crc, p.origPtr, p.c, p.codes, p.n + 2, k);
    HeaderRestIs(crc, p.origPtr, Body(p.c, p.codes, p.n + 2, k));
    BlockRestIs(p, crc, k);
  }

  lemma BlockIs(crc: nat, origPtr: nat, c: Coded, codes: seq<nat>, alphaSize: nat, k: seq<int>)
    requires Sound(c, alphaSize) && |codes| == |c.selectors|
    ensures Block(crc, origPtr, c, codes, alphaSize, k) == Header(crc, origPtr, Body(c, codes, alphaSize, k))
  {
    hide Header;
    hide Body;
  }

  lemma BlockRestIs(p: Piece, crc: nat, k: seq<int>)
    requires Sound(p.c, p.n + 2) && |p.codes| == |p.c.selectors|
    ensures BlockRest(p, crc, k) == HeaderRest(crc, p.origPtr, Body(p.c, p.codes, p.n + 2, k))
  {
    hide HeaderRest;
    hide Body;
  }

  /* ---------- reading them ---------- */

  /** The stream header: the block size is known after it. */
  method ReadMagic(r: BitReader, ghost level: nat, ghost k: seq<int>) returns (code: Code, blockSize100k: nat)
    requires r.Valid()
    modifies r
    ensures r.Valid() && |r.Remaining()| <= |old(r.Remaining())| && (code.Ok? || code.MoreInput? || code.MagicError?)
    ensures code.MoreInput? ==> r.Spent()
    ensures code.Ok? ==>
      1 <= blockSize100k <= 9 && old(r.Remaining()) == StreamHeader(blockSize100k, r.Remaining())
    ensures 1 <= level <= 9 && old(r.Remaining()) == StreamHeader(level, k) ==>
      (code.Ok? || (code.MoreInput? && r.more != [])) &&
      (code.Ok? ==> blockSize100k == level && r.Remaining() == k)
  {
    hide *;
    BlockWriter.Pow2Small();
    HeaderBytes(level, k);
    blockSize100k := 0;
    ghost var lv := if 1 <= level <= 9 then level else 1;
    var ok, uc := TakeBits(r, 8, 0x42, Put(0x5a, 8, Put(0x68, 8, Put(0x30 + lv, 8, k))));
    if !ok { return MoreInput, 0; }
    if uc != 0x42 { return MagicError, 0; }
    ok, uc := TakeBits(r, 8, 0x5a, Put(0x68, 8, Put(0x30 + lv, 8, k)));
    if !ok { return MoreInput, 0; }
    if uc != 0x5a { return MagicError, 0; }
    ok, uc := TakeBits(r, 8, 0x68, Put(0x30 + lv, 8, k));
    if !ok { return MoreInput, 0; }
    if uc != 0x68 { return MagicError, 0; }
    ok, uc := TakeBits(r, 8, 0x30 + lv, k);
    if !ok { return MoreInput, 0; }
    if uc < 0x30 + 1 || uc > 0x30 + 9 { return MagicError, 0; }
    blockSize100k := uc - 0x30;
    HeaderBytes(blockSize100k, r.Remaining());
    code := Ok;
  }

  lemma HeaderBytes(level: nat, k: seq<int>)
    ensures StreamHeader(level, k) == Put(0x42, 8, Put(0x5a, 8, Put(0x68, 8, Put(0x30 + level, 8, k))))
  {
  }

  /** The rest of the trailer: the combined checksum. */
  method ReadTrailer(r: BitReader, ghost combined: nat, ghost k: seq<int>) returns (st: Status, storedCombinedCRC: nat)
    requires r.Valid()
    modifies r
    ensures r.Valid()
    ensures st.Short? ==> r.Spent()
    ensures st.Fine? ==> old(r.Remaining()) == TrailerRest(storedCombinedCRC, r.Remaining())
    ensures combined < 0x1_0000_0000 && old(r.Remaining()) == TrailerRest(combined, k) ==>
      (st.Fine? || (st.Short? && r.more != [])) &&
      (st.Fine? ==> storedCombinedCRC == combined && r.Remaining() == k)
  {
    hide *;
    TrailerRestIs(combined, k);
    storedCombinedCRC := 0;
    ghost var word := Word(combined, k);
    st := BlockDecoder.Expect(r, 0x72, Put(0x45, 8, Put(0x38, 8, Put(0x50, 8, Put(0x90, 8, word)))));
    if !st.Fine? { return; }
    st := BlockDecoder.Expect(r, 0x45, Put(0x38, 8, Put(0x50, 8, Put(0x90, 8, word))));
    if !st.Fine? { return; }
    st := BlockDecoder.Expect(r, 0x38, Put(0x50, 8, Put(0x90, 8, word)));
    if !st.Fine? { return; }
    st := BlockDecoder.Expect(r, 0x50, Put(0x90, 8, word));
    if !st.Fine? { return; }
    st := BlockDecoder.Expect(r, 0x90, word);
    if !st.Fine? { return; }
    st, storedCombinedCRC := ReadWord(r, combined, k);
    TrailerRestIs(storedCombinedCRC, r.Remaining());
  }

  /** A rotation order and the numbers that show the block to be coded as it says. */
  ghost predicate Shows(p: Piece, rot: seq<int>, nums: seq<int>) {
    IsRuns(p.runs) && EncodedBy(p.c, p.n, p.origPtr, PackFrom(p.runs, 0), rot, nums)
  }

  lemma PieceParts(p: Piece, level: nat)
    requires Sane(p) && Fits(level, p)
    ensures IsRuns(p.runs) && |PackFrom(p.runs, 0)| <= 100000 * level - 10 && exists rot, nums :: Shows(p, rot, nums)
  {
    hide Sound;
    hide PackFrom;
    hide EncodedBy;
    assert Encodes(p.c, p.n, p.origPtr, PackFrom(p.runs, 0));
    var rot, nums :| EncodedBy(p.c, p.n, p.origPtr, PackFrom(p.runs, 0), rot, nums);
    assert Shows(p, rot, nums);
  }

  lemma PieceArriving(p: Piece, rot: seq<int>, nums: seq<int>, k: seq<int>)
    requires Sane(p) && Shows(p, rot, nums) && IsRuns(p.runs) && Sound(p.c, p.n + 2) && |p.codes| == |p.c.selectors|
    ensures Arriving(Body(p.c, p.codes, p.n + 2, k), p.c, p.codes, p.n, p.origPtr, PackFrom(p.runs, 0), rot, nums, k)
  {
    hide Body;
    hide Sound;
    hide PackFrom;
    hide EncodedBy;
    hide Encodes;
  }

  /** The end of a sequence. */
  ghost predicate Ends(end: seq<int>, s: seq<int>) {
    |end| <= |s| && s[|s| - |end|..] == end
  }

  /** A block after its first byte. On any input, what is read as its checksum and origin stands in its header. */
  method ReadBlock(r: BitReader, store: array<int>, blockSize100k: nat, ghost good: bool, ghost p: Piece,
      ghost crc: nat, ghost k: seq<int>)
    returns (st: Status, storedBlockCRC: nat, blockRandomised: bool, origPtr: nat, nblock: nat, cftab: array<int>,
        ghost l: seq<int>, ghost body: seq<int>)
    requires r.Valid() && 1 <= blockSize100k <= 9 && store.Length == 100000 * blockSize100k
    requires good ==>
      Sane(p) && Fits(blockSize100k, p) && IsRuns(p.runs) && Sound(p.c, p.n + 2) && |p.codes| == |p.c.selectors| &&
      crc < 0x1_0000_0000 && r.Remaining() == BlockRest(p, crc, k)
    modifies r, store
    ensures r.Valid() && fresh(cftab) &&
      (st.Fine? ==> origPtr < nblock == |l| <= store.Length && Keys(l, 256) && store[..nblock] == l)
    ensures st.Short? ==> r.Spent()
    ensures st.Fine? ==> InverseBwt.Cumulative(l, cftab[..], 257)
    ensures st.Fine? && !blockRandomised ==>
      old(r.Remaining()) == HeaderRest(storedBlockCRC, origPtr, body) && Ends(r.Remaining(), body)
    ensures good ==> st.Fine? || (st.Short? && r.more != [])
    ensures good && st.Fine? ==> !blockRandomised && storedBlockCRC == crc && r.Remaining() == k
    ensures good && st.Fine? ==> IsRuns(p.runs) && Delivers(l, origPtr, PackFrom(p.runs, 0))
  {
    hide *;
    ghost var rot, nums, o, rest, b: seq<int> := [], [], 0, [], [];
    ghost var c, codes, n := p.c, p.codes, p.n;
    if good {
      PieceParts(p, blockSize100k);
      BlockRestIs(p, crc, k);
      rest := Body(p.c, p.codes, p.n + 2, k);
      b := PackFrom(p.runs, 0);
      rot, nums :| Shows(p, rot, nums);
      PieceArriving(p, rot, nums, k);
      o := p.origPtr;
      ArrivingParts(rest, c, codes, n, o, b, rot, nums, k);
      EncodedSorted(c, n, o, b, rot, nums);
    }
    nblock, l, body := 0, [], [];
    cftab := new int[0];
    st, storedBlockCRC, blockRandomised, origPtr := ReadHeader(r, blockSize100k, crc, o, rest);
    if !st.Fine? { return; }
    body := r.Remaining();
    RemainingIsEnd(r);
    st, nblock, cftab, l := ReadBody(r, store, 100000 * blockSize100k, origPtr, c, codes, n, b, rot, nums, k);
    RemainingIsEnd(r);
    EndsIntro(Bits.BytesBits(r.input) + r.more, body, r.Remaining());
  }

  lemma EndsIntro(all: seq<int>, body: seq<int>, end: seq<int>)
    requires |end| <= |body| <= |all| && body == all[|all| - |body|..] && end == all[|all| - |end|..]
    ensures Ends(end, body)
  {
  }

  /* ---------- what has been read and put out, for any input ---------- */

  /** A block that has been read: the bits from its start on, the checksum word and origin in its header, the bits
      after the header and after the block, and the data put out for it. */
  datatype Told = Told(at: seq<int>, stored: nat, origPtr: nat, body: seq<int>, rest: seq<int>, data: seq<int>)

  /** The header of a block, as it stands in the input. */
  ghost predicate Headed(t: Told) {
    t.at == Put(0x31, 8, HeaderRest(t.stored, t.origPtr, t.body)) && Ends(t.rest, t.body)
  }

  /** And its data has the checksum that its header says. */
  ghost predicate Checked(t: Told) {
    Headed(t) && AreBytes(t.data) && t.stored == BlockCrc.Number(Crc(t))
  }

  ghost function Crc(t: Told): (c: bv32)
    requires AreBytes(t.data)
  {
    BlockCrc.Finalise(BlockCrc.Over(BlockCrc.INITIAL, t.data))
  }

  /** The stream header, then the blocks told, one after the other, each with the right checksum; then rest. */
  ghost predicate Trail(level: nat, told: seq<Told>, all: seq<int>, rest: seq<int>) {
    if told == [] then 1 <= level <= 9 && all == StreamHeader(level, rest)
    else
      var t := told[|told| - 1];
      Checked(t) && rest == t.rest && Trail(level, told[..|told| - 1], all, t.at)
  }

  ghost function Text(told: seq<Told>): (d: seq<int>) {
    if told == [] then [] else Text(told[..|told| - 1]) + told[|told| - 1].data
  }

  ghost function Sums(told: seq<Told>): (crcs: seq<bv32>) {
    if told == [] then []
    else Sums(told[..|told| - 1]) + [if AreBytes(told[|told| - 1].data) then Crc(told[|told| - 1]) else 0]
  }

  /** Between blocks. */
  ghost predicate Past(level: nat, told: seq<Told>, all: seq<int>, rest: seq<int>, output: seq<int>, comb: bv32) {
    Trail(level, told, all, rest) && output == Text(told) && comb == BlockCrc.Combined(Sums(told))
  }

  /** In a block: t is what is known of it so far. */
  ghost predicate Inside(level: nat, told: seq<Told>, t: Told, all: seq<int>, rest: seq<int>, output: seq<int>,
      comb: bv32, stored: nat, crc: bv32, owed: seq<int>, total: seq<int>) {
    Past(level, told, all, t.at, Text(told), comb) && Headed(t) && t.stored == stored && t.rest == rest &&
    output == Text(told) + t.data && Owing(BlockCrc.INITIAL, t.data, crc, owed, total)
  }

  /** The bits are those of a stream whose checksums are right, and the data are what its blocks put out. */
  ghost predicate Accepted(all: seq<int>, data: seq<int>) {
    exists level: nat, told, k :: AcceptedAs(all, data, level, told, k)
  }

  ghost predicate AcceptedAs(all: seq<int>, data: seq<int>, level: nat, told: seq<Told>, k: seq<int>) {
    Trail(level, told, all, Trailer(BlockCrc.Combined(Sums(told)), k)) && data == Text(told)
  }

  lemma PastStart(level: nat, all: seq<int>, rest: seq<int>)
    requires 1 <= level <= 9 && all == StreamHeader(level, rest)
    ensures Past(level, [], all, rest, [], 0)
  {
    hide StreamHeader;
    BlockCrc.CombinedNone();
  }

  lemma InsideStart(level: nat, told: seq<Told>, all: seq<int>, output: seq<int>, comb: bv32, t: Told, owed: seq<int>)
    requires Past(level, told, all, t.at, output, comb) && Headed(t) && t.data == []
    ensures Inside(level, told, t, all, t.rest, output, comb, t.stored, BlockCrc.INITIAL, owed, owed)
  {
    hide Trail;
    hide Headed;
    hide Text;
    hide BlockCrc.Combined;
    OwingStart(BlockCrc.INITIAL, owed);
    assert Text(told) + [] == Text(told);
  }

  lemma InsideWritten(level: nat, told: seq<Told>, t: Told, all: seq<int>, rest: seq<int>, output: seq<int>,
      comb: bv32, stored: nat, crc: bv32, owed: seq<int>, total: seq<int>, out: seq<int>, crc': bv32, owed': seq<int>)
    requires Inside(level, told, t, all, rest, output, comb, stored, crc, owed, total)
    requires Owing(crc, out, crc', owed', owed)
    ensures Inside(level, told, t.(data := t.data + out), all, rest, output + out, comb, stored, crc', owed', total)
  {
    hide Past;
    hide Owing;
    hide Text;
    hide HeaderRest;
    OwingChain(BlockCrc.INITIAL, t.data, crc, owed, total, out, crc', owed');
    assert Text(told) + t.data + out == Text(told) + (t.data + out);
  }

  lemma InsideDone(level: nat, told: seq<Told>, t: Told, all: seq<int>, rest: seq<int>, output: seq<int>, comb: bv32,
      stored: nat, crc: bv32, owed: seq<int>, total: seq<int>)
    requires Inside(level, told, t, all, rest, output, comb, stored, crc, owed, total)
    requires stored == BlockCrc.Number(BlockCrc.Finalise(crc))
    ensures Checked(t)
    ensures Past(level, told + [t], all, rest, output, BlockCrc.Combine(comb, BlockCrc.Finalise(crc)))
  {
    hide BlockCrc.Combine;
    hide BlockCrc.Combined;
    hide BlockCrc.Finalise;
    hide BlockCrc.Over;
    hide BlockCrc.Number;
    hide HeaderRest;
    hide StreamHeader;
    var more := told + [t];
    assert more[..|more| - 1] == told && more[|told|] == t;
    BlockCrc.CombinedNext(Sums(told), BlockCrc.Finalise(crc));
  }

  lemma InsideOwing(level: nat, told: seq<Told>, t: Told, all: seq<int>, rest: seq<int>, output: seq<int>, comb: bv32,
      stored: nat, crc: bv32, owed: seq<int>, total: seq<int>)
    requires Inside(level, told, t, all, rest, output, comb, stored, crc, owed, total)
    ensures Owing(BlockCrc.INITIAL, t.data, crc, owed, total) && output == Text(told) + t.data
    ensures Past(level, told, all, t.at, Text(told), comb)
  {
    hide Past;
    hide Headed;
    hide Owing;
    hide Text;
  }

  lemma AcceptedIntro(level: nat, told: seq<Told>, all: seq<int>, rest: seq<int>, output: seq<int>, comb: bv32,
      k: seq<int>)
    requires Past(level, told, all, rest, output, comb)
    requires rest == Put(0x17, 8, TrailerRest(BlockCrc.Number(comb), k))
    ensures Accepted(all, output)
  {
    hide Trail;
    hide Trailer;
    hide BlockCrc.Combined;
    hide Put;
    hide TrailerRest;
    TrailerIs(comb, k);
    assert AcceptedAs(all, output, level, told, k);
  }

  /* ---------- how far a stream has been read ---------- */

  ghost predicate Expected(ps: seq<Piece>, crcs: seq<bv32>, level: nat) {
    AllSane(ps) && AllFit(level, ps) && |crcs| == |ps| && 1 <= level <= 9
  }

  /** The words in the first i headers are the checksums of their blocks. */
  ghost predicate Right(ps: seq<Piece>, crcs: seq<bv32>, i: nat)
    requires AllSane(ps) && |crcs| == |ps| && i <= |ps|
  {
    forall j :: 0 <= j < i ==> crcs[j] == CrcOf(ps[j])
  }

  /** All checksums in the stream are right. */
  ghost predicate Genuine(ps: seq<Piece>, crcs: seq<bv32>, combined: bv32)
    requires AllSane(ps) && |crcs| == |ps|
  {
    Right(ps, crcs, |ps|) && combined == BlockCrc.Combined(crcs)
  }

  /** How many blocks are put out: up to the first whose checksum is wrong. */
  ghost function Upto(ps: seq<Piece>, crcs: seq<bv32>, i: nat): (n: nat)
    requires AllSane(ps) && |crcs| == |ps| && i <= |ps|
    ensures i <= n <= |ps|
    decreases |ps| - i
  {
    if i == |ps| then i else if crcs[i] != CrcOf(ps[i]) then i + 1 else Upto(ps, crcs, i + 1)
  }

  /** All that is put out. */
  ghost function Goal(ps: seq<Piece>, crcs: seq<bv32>): (d: seq<int>)
    requires AllSane(ps) && |crcs| == |ps|
  {
    DataOf(ps, Upto(ps, crcs, 0))
  }

  lemma {:induction false} UptoRight(ps: seq<Piece>, crcs: seq<bv32>, i: nat)
    requires AllSane(ps) && |crcs| == |ps| && i <= |ps| && Right(ps, crcs, i)
    ensures Upto(ps, crcs, 0) == Upto(ps, crcs, i)
    decreases i
  {
    hide Sane;
    hide CrcOf;
    if i > 0 { UptoRight(ps, crcs, i - 1); }
  }

  /** If every checksum is right, all the data is put out. */
  lemma GoalGenuine(ps: seq<Piece>, crcs: seq<bv32>)
    requires AllSane(ps) && |crcs| == |ps| && Right(ps, crcs, |ps|)
    ensures Goal(ps, crcs) == DataOf(ps, |ps|)
  {
    hide Sane;
    hide CrcOf;
    UptoRight(ps, crcs, |ps|);
  }

  /** Nothing has been read. */
  ghost predicate AtMagic(ps: seq<Piece>, crcs: seq<bv32>, combined: bv32, level: nat, k: seq<int>, stream: seq<int>,
      output: seq<int>) {
    Expected(ps, crcs, level) && stream == Whole(level, ps, crcs, combined, k) && output == []
  }

  /** Between blocks: i blocks have been read and their data put out. */
  ghost predicate AtHeader(ps: seq<Piece>, crcs: seq<bv32>, combined: bv32, level: nat, k: seq<int>, i: nat, bs: nat,
      stream: seq<int>, output: seq<int>, comb: bv32) {
    Expected(ps, crcs, level) && bs == level && i <= |ps| && stream == Tail(ps, crcs, combined, i, k) &&
    output == DataOf(ps, i) && Right(ps, crcs, i) && comb == BlockCrc.Combined(crcs[..i])
  }

  /** In block i, whose data is total; before is what had been put out before it. */
  ghost predicate InBlock(ps: seq<Piece>, crcs: seq<bv32>, combined: bv32, level: nat, k: seq<int>, i: nat, bs: nat,
      stream: seq<int>, before: seq<int>, comb: bv32, stored: nat, total: seq<int>) {
    Expected(ps, crcs, level) && bs == level && i < |ps| && IsRuns(ps[i].runs) &&
    stream == Tail(ps, crcs, combined, i + 1, k) && before == DataOf(ps, i) && Right(ps, crcs, i) &&
    comb == BlockCrc.Combined(crcs[..i]) && stored == BlockCrc.Number(crcs[i]) && total == DataFrom(ps[i].runs, 0)
  }

  /** How it ends: all that is to be put out has been, and the code says whether the checksums were right. If the
      input is only the beginning of the stream, it may end before. */
  ghost predicate Concluded(ps: seq<Piece>, crcs: seq<bv32>, combined: bv32, level: nat, more: seq<int>, code: Code,
      output: seq<int>) {
    Expected(ps, crcs, level) &&
    match code
    case StreamEnd => Genuine(ps, crcs, combined) && output == Goal(ps, crcs) && more == []
    case DataError => !Genuine(ps, crcs, combined) && output == Goal(ps, crcs)
    case MoreInput => more != [] && output <= Goal(ps, crcs)
    case _ => false
  }

  /** The room is used up before that. */
  ghost predicate Underway(ps: seq<Piece>, crcs: seq<bv32>, level: nat, output: seq<int>) {
    Expected(ps, crcs, level) && output < Goal(ps, crcs)
  }

  lemma ConcludedParts(ps: seq<Piece>, crcs: seq<bv32>, combined: bv32, level: nat, more: seq<int>, code: Code,
      output: seq<int>)
    requires Concluded(ps, crcs, combined, level, more, code, output)
    ensures AllSane(ps) && |crcs| == |ps| && (code.StreamEnd? || code.DataError? || code.MoreInput?)
    ensures code.StreamEnd? ==> Genuine(ps, crcs, combined) && output == Goal(ps, crcs) && more == []
    ensures code.DataError? ==> !Genuine(ps, crcs, combined) && output == Goal(ps, crcs)
    ensures code.MoreInput? ==> more != [] && output <= Goal(ps, crcs)
  {
    hide Sane;
    hide AllFit;
    hide Genuine;
    hide Goal;
  }

  lemma MagicStep(ps: seq<Piece>, crcs: seq<bv32>, combined: bv32, level: nat, k: seq<int>, stream: seq<int>,
      output: seq<int>)
    requires AtMagic(ps, crcs, combined, level, k, stream, output)
    ensures AllSane(ps) && |crcs| == |ps| && 1 <= level <= 9 &&
      stream == StreamHeader(level, Tail(ps, crcs, combined, 0, k)) &&
      AtHeader(ps, crcs, combined, level, k, 0, level, Tail(ps, crcs, combined, 0, k), output, 0)
    ensures output <= Goal(ps, crcs)
  {
    hide AllFit;
    hide Sane;
    hide PiecesBits;
    hide StreamHeader;
    hide Trailer;
    BlockCrc.CombinedNone();
    assert crcs[..0] == [];
  }

  lemma HeaderParts(ps: seq<Piece>, crcs: seq<bv32>, combined: bv32, level: nat, k: seq<int>, i: nat, bs: nat,
      stream: seq<int>, output: seq<int>, comb: bv32)
    requires AtHeader(ps, crcs, combined, level, k, i, bs, stream, output, comb)
    ensures Expected(ps, crcs, level) && AllSane(ps) && |crcs| == |ps| && i <= |ps| && bs == level && 1 <= level <= 9
    ensures stream == Tail(ps, crcs, combined, i, k)
    ensures i < |ps| ==> Fits(level, ps[i])
  {
    hide Sane;
    hide Fits;
    hide Tail;
    hide BlockCrc.Combined;
    hide DataOf;
    hide Right;
  }

  /** Between blocks, what has been put out is the beginning of what will be; behind the last block it is all. */
  lemma HeaderGoal(ps: seq<Piece>, crcs: seq<bv32>, combined: bv32, level: nat, k: seq<int>, i: nat, bs: nat,
      stream: seq<int>, output: seq<int>, comb: bv32)
    requires AtHeader(ps, crcs, combined, level, k, i, bs, stream, output, comb)
    ensures AllSane(ps) && |crcs| == |ps| && i <= |ps| && output <= Goal(ps, crcs)
    ensures i == |ps| ==> output == Goal(ps, crcs) && (Genuine(ps, crcs, combined) <==> combined == comb)
  {
    hide Sane;
    hide Fits;
    hide Tail;
    hide CrcOf;
    hide BlockCrc.Combined;
    hide DataFrom;
    UptoRight(ps, crcs, i);
    DataGrows(ps, i, Upto(ps, crcs, i));
    if i == |ps| { assert crcs[..i] == crcs; }
  }

  lemma HeaderEnd(ps: seq<Piece>, crcs: seq<bv32>, combined: bv32, k: seq<int>)
    requires AllSane(ps) && |crcs| == |ps|
    ensures Tail(ps, crcs, combined, |ps|, k) == Put(0x17, 8, TrailerRest(BlockCrc.Number(combined), k))
  {
    hide *;
    TailEnd(ps, crcs, combined, k);
    TrailerIs(combined, k);
  }

  lemma HeaderSane(ps: seq<Piece>, i: nat)
    requires AllSane(ps) && i < |ps|
    ensures Sane(ps[i]) && IsRuns(ps[i].runs) && Sound(ps[i].c, ps[i].n + 2) && |ps[i].codes| == |ps[i].c.selectors|
  {
    hide *;
    SaneAt(ps, i);
    SaneParts(ps[i]);
  }

  /** The rows deliver the packed runs, so their data is owed. */
  lemma DeliveredData(l: seq<int>, origPtr: nat, d: seq<int>, runs: seq<Run>)
    requires IsRuns(runs) && Delivers(l, origPtr, PackFrom(runs, 0)) && Fetched(l, origPtr, d)
    ensures |d| == |l| + 1 && AreBytes(d) && Rest(d, |l|, 1) == DataFrom(runs, 0) && !Spoilt(d, |l|, 1)
  {
    hide Decoded;
    hide Expand;
    hide Overruns;
    var n, b := |l|, PackFrom(runs, 0);
    FetchedAt(l, origPtr, d, 0);
    forall i: nat | i < n ensures d[i] == b[i] { FetchedAt(l, origPtr, d, i); }
    assert d[0..n] == b;
    DataByte(d, n);
    ExpandPacked(runs, 0, d[n]);
  }

  lemma BlockStart(ps: seq<Piece>, crcs: seq<bv32>, combined: bv32, level: nat, k: seq<int>, i: nat, bs: nat,
      stream: seq<int>, output: seq<int>, comb: bv32, stored: nat, owed: seq<int>)
    requires AtHeader(ps, crcs, combined, level, k, i, bs, stream, output, comb) && i < |ps| && IsRuns(ps[i].runs)
    requires stored == BlockCrc.Number(crcs[i]) && owed == DataFrom(ps[i].runs, 0)
    ensures InBlock(ps, crcs, combined, level, k, i, bs, Tail(ps, crcs, combined, i + 1, k), output, comb, stored, owed)
  {
    hide AllSane;
    hide AllFit;
    hide IsRuns;
    hide Tail;
    hide BlockCrc.Combined;
    hide BlockCrc.Number;
    hide DataOf;
    hide Right;
    hide DataFrom;
  }

  lemma OwingChain(c0: bv32, done: seq<int>, crc: bv32, owed: seq<int>, all: seq<int>, out: seq<int>, crc': bv32,
      owed': seq<int>)
    requires Owing(c0, done, crc, owed, all) && Owing(crc, out, crc', owed', owed)
    ensures Owing(c0, done + out, crc', owed', all)
  {
    hide BlockCrc.Over;
    BlockCrc.OverConcat(c0, done, out);
    assert done + (out + owed') == done + out + owed';
  }

  /** The block is done: either its checksum is right, and the next may come, or it is wrong. */
  lemma BlockDone(ps: seq<Piece>, crcs: seq<bv32>, combined: bv32, level: nat, k: seq<int>, i: nat, bs: nat,
      stream: seq<int>, before: seq<int>, comb: bv32, stored: nat, done: seq<int>, crc: bv32, total: seq<int>)
    requires InBlock(ps, crcs, combined, level, k, i, bs, stream, before, comb, stored, total)
    requires Owing(BlockCrc.INITIAL, done, crc, [], total)
    ensures stored == BlockCrc.Number(BlockCrc.Finalise(crc)) ==>
      AtHeader(ps, crcs, combined, level, k, i + 1, bs, stream, before + done,
      BlockCrc.Combine(comb, BlockCrc.Finalise(crc)))
    ensures AllSane(ps) && |crcs| == |ps|
    ensures stored != BlockCrc.Number(BlockCrc.Finalise(crc)) ==>
      before + done == Goal(ps, crcs) && !Genuine(ps, crcs, combined)
  {
    hide AllFit;
    hide Sane;
    hide IsRuns;
    hide Tail;
    hide DataFrom;
    hide BlockCrc.Over;
    hide BlockCrc.Combine;
    hide BlockCrc.Combined;
    hide BlockCrc.Finalise;
    hide BlockCrc.Number;
    assert done + [] == done;
    SaneParts(ps[i]);
    assert CrcOf(ps[i]) == BlockCrc.Finalise(crc);
    BlockCrc.NumberIs(crcs[i]);
    BlockCrc.NumberIs(BlockCrc.Finalise(crc));
    assert crcs[..i + 1] == crcs[..i] + [crcs[i]];
    BlockCrc.CombinedNext(crcs[..i], crcs[i]);
    UptoRight(ps, crcs, i);
  }

  lemma {:induction false} DataGrows(ps: seq<Piece>, i: nat, j: nat)
    requires AllSane(ps) && i <= j <= |ps|
    ensures DataOf(ps, i) <= DataOf(ps, j)
    decreases j
  {
    hide Sane;
    hide DataFrom;
    if i < j { DataGrows(ps, i, j - 1); }
  }

  /** While something of a block is owed, only a part of the data has been put out. */
  lemma DataLeft(ps: seq<Piece>, crcs: seq<bv32>, combined: bv32, level: nat, k: seq<int>, i: nat, bs: nat,
      stream: seq<int>, before: seq<int>, comb: bv32, stored: nat, done: seq<int>, crc: bv32, owed: seq<int>,
      total: seq<int>)
    requires InBlock(ps, crcs, combined, level, k, i, bs, stream, before, comb, stored, total)
    requires Owing(BlockCrc.INITIAL, done, crc, owed, total) && owed != []
    ensures Underway(ps, crcs, level, before + done)
  {
    hide Sane;
    hide IsRuns;
    hide Tail;
    hide BlockCrc.Combined;
    hide BlockCrc.Number;
    hide CrcOf;
    hide DataFrom;
    hide AllFit;
    UptoRight(ps, crcs, i);
    DataGrows(ps, i + 1, Upto(ps, crcs, i));
    assert DataOf(ps, i + 1) == DataOf(ps, i) + (done + owed) == DataOf(ps, i) + done + owed;
  }

  lemma OwedSome(d: seq<int>, n: nat)
    requires |d| == n + 1 && n > 0 && AreBytes(d)
    ensures Rest(d, n, 1) != []
  {
    var s := d[0..n];
    assert |s| > 0;
  }

  /* ---------- the state ---------- */

  class Decompressor {
    // bz_stream
    const r: BitReader
    var output: seq<int>

    // DState
    var state: State
    var blockSize100k: nat
    const small: bool
    var store: array<int>  // tt, or ll16 of the small decoder
    var ll4: array<int>
    var block: BlockOutput?
    var storedBlockCRC: nat
    var calculatedCombinedCRC: bv32

    // the blocks read so far, and the one being put out
    ghost const all: seq<int>
    ghost var told: seq<Told>
    ghost var cur: Told
    ghost var total: seq<int>

    // whether the input is a whole stream, or the beginning of one, and which
    ghost const good: bool
    ghost const ps: seq<Piece>
    ghost const crcs: seq<bv32>
    ghost const combined: bv32
    ghost const level: nat
    ghost const k: seq<int>

    ghost predicate Valid()
      reads this, r, store, ll4, block, if block == null then {} else {block.cftab}
    {
      match state
      case Magic => AtStart()
      case BlockHeader => Between()
      case Output => Within()
      case Idle => r.Valid()
    }

    ghost predicate AtStart()
      reads this, r
    {
      r.Valid() && r.Remaining() == all && told == [] && output == [] && calculatedCombinedCRC == 0 &&
      (good ==>
        AtMagic(ps, crcs, combined, level, k, r.Remaining(), output) && (r.more == [] || |r.more| > |k|))
    }

    lemma AtStartParts()
      requires AtStart()
      ensures r.Valid() && r.Remaining() == all && told == [] && output == [] && calculatedCombinedCRC == 0
      ensures good ==>
        AtMagic(ps, crcs, combined, level, k, r.Remaining(), output) && (r.more == [] || |r.more| > |k|)
    {
      hide AtMagic;
      hide BitReader.Valid;
    }

    lemma AtStartIntro()
      requires r.Valid() && r.Remaining() == all && told == [] && output == [] && calculatedCombinedCRC == 0
      requires good ==>
        AtMagic(ps, crcs, combined, level, k, r.Remaining(), output) && (r.more == [] || |r.more| > |k|)
      ensures AtStart()
    {
      hide AtMagic;
      hide BitReader.Valid;
    }

    /** The store for a block, of which the small decoder keeps four bits of each cell apart. */
    ghost predicate Allocated()
      reads this, r, store, ll4
    {
      r.Valid() && 1 <= blockSize100k <= 9 && store.Length == 100000 * blockSize100k && store != ll4 &&
      (small ==> InverseBwt.Packs(store[..], ll4[..]))
    }

    lemma AllocatedParts()
      requires Allocated()
      ensures r.Valid() && 1 <= blockSize100k <= 9 && store.Length == 100000 * blockSize100k && store != ll4 &&
        (small ==> InverseBwt.Packs(store[..], ll4[..]))
    {
      hide InverseBwt.Packs;
      hide BitReader.Valid;
    }

    lemma AllocatedIntro()
      requires r.Valid() && 1 <= blockSize100k <= 9 && store.Length == 100000 * blockSize100k && store != ll4 &&
        (small ==> InverseBwt.Packs(store[..], ll4[..]))
      ensures Allocated()
    {
      hide InverseBwt.Packs;
      hide BitReader.Valid;
    }

    ghost predicate Between()
      reads this, r, store, ll4
    {
      Allocated() && Placed(r.Remaining())
    }

    /** Where the input stands between blocks. */
    ghost predicate Placed(stream: seq<int>)
      reads this
    {
      Past(blockSize100k, told, all, stream, output, calculatedCombinedCRC) &&
      (good ==>
        AtHeader(ps, crcs, combined, level, k, |told|, blockSize100k, stream, output, calculatedCombinedCRC) &&
        (r.more == [] || |r.more| > |k|))
    }

    lemma PlacedParts(stream: seq<int>)
      requires Placed(stream)
      ensures Past(blockSize100k, told, all, stream, output, calculatedCombinedCRC)
      ensures good ==>
        AtHeader(ps, crcs, combined, level, k, |told|, blockSize100k, stream, output, calculatedCombinedCRC) &&
        (r.more == [] || |r.more| > |k|)
    {
      hide Past;
      hide AtHeader;
    }

    lemma PlacedIntro(stream: seq<int>)
      requires Past(blockSize100k, told, all, stream, output, calculatedCombinedCRC)
      requires good ==>
        AtHeader(ps, crcs, combined, level, k, |told|, blockSize100k, stream, output, calculatedCombinedCRC) &&
        (r.more == [] || |r.more| > |k|)
      ensures Placed(stream)
    {
      hide Past;
      hide AtHeader;
    }

    ghost predicate Within()
      reads this, r, store, ll4, block, if block == null then {} else {block.cftab}
    {
      Following() && OnTrack()
    }

    ghost predicate Following()
      reads this, r, store, ll4, block, if block == null then {} else {block.cftab}
    {
      Allocated() && block != null && block.store == store && block.ll4 == ll4 && block.Valid()
    }

    ghost predicate OnTrack()
      requires Following()
      reads this, r, store, ll4, block, if block == null then {} else {block.cftab}
    {
      InTime(block.Broken(), r.Remaining(), block.calculatedBlockCRC, block.Owed())
    }

    /** Where it stands in a block. */
    ghost predicate InTime(broken: bool, stream: seq<int>, crc: bv32, owed: seq<int>)
      reads this
    {
      Inside(blockSize100k, told, cur, all, stream, output, calculatedCombinedCRC, storedBlockCRC, crc, owed, total) &&
      (good ==>
        !broken && (r.more == [] || |r.more| > |k|) &&
        InBlock(ps, crcs, combined, level, k, |told|, blockSize100k, stream, Text(told), calculatedCombinedCRC,
        storedBlockCRC, total))
    }

    /** BZ2_bzDecompressInit, with the input, which may be only the beginning of a stream. */
    constructor (bytes: seq<int>, small: bool, ghost more: seq<int>, ghost good: bool, ghost ps: seq<Piece>,
        ghost crcs: seq<bv32>, ghost combined: bv32, ghost level: nat, ghost k: seq<int>)
      requires AreBytes(bytes) && Bits.IsBits(more)
      requires good ==>
        Expected(ps, crcs, level) && AllSane(ps) && |crcs| == |ps| && (more == [] || |more| > |k|) &&
        Bits.BytesBits(bytes) + more == Whole(level, ps, crcs, combined, k)
      ensures Valid() && state.Magic? && output == [] && this.good == good && this.ps == ps && this.crcs == crcs &&
        this.combined == combined && this.level == level && all == Bits.BytesBits(bytes) + more && r.more == more
      ensures fresh(r) && fresh(store) && fresh(ll4) && block == null
    {
      hide *;
      BytesAre(bytes);
      r := new BitReader(bytes, more);
      this.small := small;
      this.good, this.ps, this.crcs, this.combined, this.level, this.k := good, ps, crcs, combined, level, k;
      all, told, cur, total := Bits.BytesBits(bytes) + more, [], Told([], 0, 0, [], [], []), [];
      output, state, blockSize100k, block := [], Magic, 0, null;
      store, ll4 := new int[0], new int[0];
      storedBlockCRC, calculatedCombinedCRC := 0, 0;
      new;
      if good { MagicIntro(ps, crcs, combined, level, k, r.Remaining()); }
      AtStartIntro();
      ValidMagic();
    }

    lemma ValidIdle()
      requires state.Idle? && r.Valid()
      ensures Valid()
    {
      hide BitReader.Valid;
    }

    lemma BetweenIntro()
      requires Allocated() && r.Valid() && Placed(r.Remaining())
      ensures Between() && (state.BlockHeader? ==> Valid())
    {
      hide Placed;
      hide BitReader.Valid;
    }

    lemma BetweenParts()
      requires Between()
      ensures Allocated() && r.Valid() && Placed(r.Remaining())
    {
      hide Placed;
      hide BitReader.Valid;
    }

    lemma ValidParts()
      requires Valid()
      ensures r.Valid()
      ensures state.Magic? ==> AtStart()
      ensures state.BlockHeader? ==> Between()
      ensures state.Output? ==> Within() && Following()
    {
      hide Placed;
      hide AtMagic;
      hide BitReader.Valid;
      hide InTime;
      hide BlockOutput.Valid;
    }

    lemma WithinParts()
      requires Within()
      ensures Following() && Allocated() && r.Valid() && block != null && block.store == store && block.ll4 == ll4 &&
        block.Valid()
      ensures InTime(block.Broken(), r.Remaining(), block.calculatedBlockCRC, block.Owed())
    {
      hide BitReader.Valid;
      hide InTime;
      hide BlockOutput.Valid;
    }

    lemma WithinIntro()
      requires Allocated() && r.Valid() && block != null && block.store == store && block.ll4 == ll4 && block.Valid()
      requires InTime(block.Broken(), r.Remaining(), block.calculatedBlockCRC, block.Owed())
      ensures Within() && Following() && (state.Output? ==> Valid())
    {
      hide BitReader.Valid;
      hide InTime;
      hide BlockOutput.Valid;
    }

    lemma InTimeParts(broken: bool, stream: seq<int>, crc: bv32, owed: seq<int>)
      requires InTime(broken, stream, crc, owed)
      ensures Inside(blockSize100k, told, cur, all, stream, output, calculatedCombinedCRC, storedBlockCRC, crc, owed,
        total)
      ensures good ==>
        !broken && (r.more == [] || |r.more| > |k|) &&
        InBlock(ps, crcs, combined, level, k, |told|, blockSize100k, stream, Text(told), calculatedCombinedCRC,
        storedBlockCRC, total)
    {
      hide InBlock;
      hide Inside;
    }

    lemma InTimeIntro(broken: bool, stream: seq<int>, crc: bv32, owed: seq<int>)
      requires Inside(blockSize100k, told, cur, all, stream, output, calculatedCombinedCRC, storedBlockCRC, crc, owed,
        total)
      requires good ==>
        !broken && (r.more == [] || |r.more| > |k|) &&
        InBlock(ps, crcs, combined, level, k, |told|, blockSize100k, stream, Text(told), calculatedCombinedCRC,
        storedBlockCRC, total)
      ensures InTime(broken, stream, crc, owed)
    {
      hide InBlock;
      hide Inside;
    }

    /** How the call ends, for a stream or the beginning of one. */
    ghost predicate Settled(code: Code)
      reads this
    {
      Concluded(ps, crcs, combined, level, r.more, code, output)
    }

    lemma SettledIs(code: Code)
      ensures Settled(code) <==> Concluded(ps, crcs, combined, level, r.more, code, output)
    {
      hide Concluded;
    }

    /** The stream header is read, and the store for blocks allocated. */
    method Begin() returns (code: Code)
      requires Valid() && state.Magic?
      modifies this`state, this`blockSize100k, this`store, this`ll4, r
      ensures r.Valid() && (code.Ok? ==> Between() && fresh(store) && fresh(ll4) && state.BlockHeader?)
      ensures !code.Ok? ==> store == old(store) && ll4 == old(ll4) && state.Magic?
      ensures !code.Ok? ==> code.MoreInput? || code.MagicError?
      ensures code.MoreInput? ==> r.Spent()
      ensures good && !code.Ok? ==> Settled(code)
    {
      hide *;
      ValidParts();
      AtStartParts();
      if good { MagicStep(ps, crcs, combined, level, k, r.Remaining(), output); }
      ghost var rest := if good then Tail(ps, crcs, combined, 0, k) else [];
      var bs;
      code, bs := ReadMagic(r, level, rest);
      if !code.Ok? {
        if good {
          CutShort(ps, crcs, combined, level, k, 0, level, rest, output, 0, r.more);
          SettledIs(code);
        }
        return;
      }
      blockSize100k := bs;
      store := new int[100000 * bs];
      ll4 := AllocateBytes(if small then (1 + 100000 * bs) / 2 else 0);
      if small { PacksIntro(store[..], ll4[..]); }
      state := BlockHeader;
      PastStart(bs, all, r.Remaining());
      AllocatedIntro();
      PlacedIntro(r.Remaining());
      BetweenIntro();
    }

    /** What follows the first byte of a block. */
    ghost predicate Opening(p: Piece, crc: nat, rest: seq<int>)
      reads this
    {
      |told| < |ps| && p == ps[|told|] && AllSane(ps) && |crcs| == |ps| && blockSize100k == level && Fits(level, p) &&
      Sane(p) && IsRuns(p.runs) && Sound(p.c, p.n + 2) && |p.codes| == |p.c.selectors| &&
      crc == BlockCrc.Number(crcs[|told|]) && rest == BlockRest(p, crc, Tail(ps, crcs, combined, |told| + 1, k))
    }

    lemma OpeningParts(p: Piece, crc: nat, rest: seq<int>)
      requires Opening(p, crc, rest)
      ensures |told| < |ps| && p == ps[|told|] && AllSane(ps) && |crcs| == |ps| && blockSize100k == level &&
        Fits(level, p) && Sane(p) && IsRuns(p.runs) && Sound(p.c, p.n + 2) && |p.codes| == |p.c.selectors|
      ensures crc < 0x1_0000_0000 && crc == BlockCrc.Number(crcs[|told|]) &&
        rest == BlockRest(p, crc, Tail(ps, crcs, combined, |told| + 1, k))
    {
      hide AllSane;
      hide Sane;
      hide Fits;
      hide Sound;
      hide IsRuns;
      hide BlockRest;
      hide Tail;
    }

    lemma OpeningIntro(p: Piece, crc: nat, rest: seq<int>)
      requires |told| < |ps| && p == ps[|told|] && AllSane(ps) && |crcs| == |ps| && blockSize100k == level &&
        Fits(level, p) && Sane(p) && IsRuns(p.runs) && Sound(p.c, p.n + 2) && |p.codes| == |p.c.selectors|
      requires crc == BlockCrc.Number(crcs[|told|]) &&
        rest == BlockRest(p, crc, Tail(ps, crcs, combined, |told| + 1, k))
      ensures Opening(p, crc, rest)
    {
      hide AllSane;
      hide Sane;
      hide Fits;
      hide Sound;
      hide IsRuns;
      hide BlockRest;
      hide Tail;
      hide BlockCrc.Number;
    }

    /** The first byte tells a block from the end of the stream; word is the checksum that follows. */
    ghost predicate Facing(first: nat, p: Piece, word: nat, rest: seq<int>, stream: seq<int>)
      reads this
    {
      stream == Put(first, 8, rest) && (first == 0x17 || first == 0x31) &&
      (first == 0x17 ==> |told| == |ps| && word == BlockCrc.Number(combined) && rest == TrailerRest(word, k)) &&
      (first == 0x31 ==> Opening(p, word, rest))
    }

    lemma Faces(stream: seq<int>) returns (first: nat, p: Piece, word: nat, rest: seq<int>)
      requires AtHeader(ps, crcs, combined, level, k, |told|, blockSize100k, stream, output, calculatedCombinedCRC)
      ensures Facing(first, p, word, rest, stream)
    {
      hide AllSane;
      hide Sane;
      hide Fits;
      hide Sound;
      hide IsRuns;
      hide TrailerRest;
      hide BlockRest;
      hide Put;
      hide Tail;
      hide Opening;
      hide BlockCrc.Number;
      HeaderParts(ps, crcs, combined, level, k, |told|, blockSize100k, stream, output, calculatedCombinedCRC);
      if |told| == |ps| {
        HeaderEnd(ps, crcs, combined, k);
        first, word := 0x17, BlockCrc.Number(combined);
        rest := TrailerRest(word, k);
        p := Piece([], 0, Coded([], [], [], []), [], 0);
      } else {
        HeaderSane(ps, |told|);
        first, p, word := 0x31, ps[|told|], BlockCrc.Number(crcs[|told|]);
        TailBlock(ps, crcs, combined, |told|, k, p, word);
        rest := BlockRest(p, word, Tail(ps, crcs, combined, |told| + 1, k));
        PieceStart(p, word, Tail(ps, crcs, combined, |told| + 1, k));
        OpeningIntro(p, word, rest);
      }
    }

    lemma FacingParts(first: nat, p: Piece, word: nat, rest: seq<int>, stream: seq<int>)
      requires Facing(first, p, word, rest, stream)
      ensures (first == 0x17 || first == 0x31) && stream == Put(first, 8, rest)
      ensures first == 0x17 ==> |told| == |ps| && word == BlockCrc.Number(combined) && rest == TrailerRest(word, k)
      ensures first == 0x31 ==> Opening(p, word, rest)
    {
      hide AllSane;
      hide Opening;
      hide TrailerRest;
      hide Put;
    }

    /** A failure, or the end: nothing more will be done. */
    method Stop(why: Code) returns (code: Code)
      requires r.Valid()
      modifies this`state
      ensures Valid() && state.Idle? && code == why
    {
      hide *;
      state := Idle;
      ValidIdle();
      code := why;
    }

    /** BZ2_decompress from the start of a block: the block is made ready for output, or the stream ends. */
    method NextBlock() returns (code: Code)
      requires Between() && state.BlockHeader?
      modifies this`state, this`block, this`storedBlockCRC, this`cur, this`total, r, store, ll4
      ensures Valid() && output == old(output) && told == old(told)
      ensures code.Ok? ==> state.Output? && block != null && fresh(block) && block.Valid() && block.Owed() != []
      ensures !code.Ok? ==> state.Idle? && block == old(block)
      ensures code.MoreInput? ==> r.Spent()
      ensures good && !code.Ok? ==> Settled(code)
      ensures !code.SequenceError? && (code.StreamEnd? ==> Accepted(all, output))
    {
      hide *;
      BetweenParts();
      AllocatedParts();
      ghost var stream := r.Remaining();
      PlacedParts(stream);
      ghost var first, word, rest := 0x17, 0, [];
      ghost var p := Piece([], 0, Coded([], [], [], []), [], 0);
      if good {
        first, p, word, rest := Faces(stream);
        FacingParts(first, p, word, rest, stream);
        CutShort(ps, crcs, combined, level, k, |told|, blockSize100k, stream, output, calculatedCombinedCRC, r.more);
      }
      BlockWriter.Pow2Small();
      var ok, uc := TakeBits(r, 8, first, rest);
      if !ok {
        code := Stop(MoreInput);
        SettledIs(code);
      } else if uc == 0x17 {
        code := EndStream(stream, word, rest);
      } else if uc != 0x31 {
        code := Stop(DataError);
      } else {
        AllocatedIntro();
        code := OpenBlock(p, word, rest, stream);
      }
    }

    /** The trailer. */
    method EndStream(ghost stream: seq<int>, ghost word: nat, ghost rest: seq<int>) returns (code: Code)
      requires r.Valid() && Placed(stream) && stream == Put(0x17, 8, r.Remaining())
      requires good ==>
        |told| == |ps| && word == BlockCrc.Number(combined) && rest == TrailerRest(word, k) && r.Remaining() == rest
      modifies this`state, r
      ensures Valid() && state.Idle? && !code.Ok? && !code.SequenceError? && (good ==> Settled(code))
      ensures code.MoreInput? ==> r.Spent()
      ensures code.StreamEnd? ==> Accepted(all, output)
    {
      hide *;
      PlacedParts(stream);
      BlockCrc.NumberIs(combined);
      BlockCrc.NumberIs(calculatedCombinedCRC);
      if good {
        CutShort(ps, crcs, combined, level, k, |told|, blockSize100k, stream, output, calculatedCombinedCRC, r.more);
      }
      var st, storedCombinedCRC := ReadTrailer(r, word, k);
      RemainingIsEnd(r);
      if !st.Fine? {
        code := Stop(if st.Short? then MoreInput else DataError);
        SettledIs(code);
        return;
      }
      if good {
        AtTheEnd(ps, crcs, combined, level, k, |told|, blockSize100k, stream, output, calculatedCombinedCRC, r.more);
      }
      if BlockCrc.Number(calculatedCombinedCRC) != storedCombinedCRC {
        code := Stop(DataError);
      } else {
        AcceptedIntro(blockSize100k, told, all, stream, output, calculatedCombinedCRC, r.Remaining());
        code := Stop(StreamEnd);
      }
      SettledIs(code);
    }

    /** A block. */
    method OpenBlock(ghost p: Piece, ghost word: nat, ghost rest: seq<int>, ghost stream: seq<int>)
        returns (code: Code)
      requires Allocated() && r.Valid() && Placed(stream) && stream == Put(0x31, 8, r.Remaining())
      requires good ==> Opening(p, word, rest) && r.Remaining() == rest
      modifies this`state, this`block, this`storedBlockCRC, this`cur, this`total, r, store, ll4
      ensures Valid() && output == old(output) && told == old(told)
      ensures code.Ok? ==> state.Output? && block != null && fresh(block) && block.Valid() && block.Owed() != []
      ensures !code.Ok? ==> state.Idle? && block == old(block) && !code.StreamEnd? && !code.SequenceError?
      ensures code.MoreInput? ==> r.Spent()
      ensures good && !code.Ok? ==> Settled(code)
    {
      hide *;
      PlacedParts(stream);
      ghost var next := [];
      if good {
        OpeningParts(p, word, rest);
        next := Tail(ps, crcs, combined, |told| + 1, k);
        CutShort(ps, crcs, combined, level, k, |told|, blockSize100k, stream, output, calculatedCombinedCRC, r.more);
      }
      AllocatedParts();
      ghost var nibbles, size := ll4[..], store[..];
      var st, stored, randomised, origPtr, nblock, cftab;
      ghost var l, body;
      st, stored, randomised, origPtr, nblock, cftab, l, body :=
        ReadBlock(r, store, blockSize100k, good, p, word, next);
      assert ll4[..] == nibbles;
      if small { PacksSame(size, store[..], ll4[..]); }
      if !st.Fine? {
        code := Stop(if st.Short? then MoreInput else DataError);
        SettledIs(code);
        return;
      }
      if randomised {
        code := Stop(Randomised);
        return;
      }
      HeadedIntro(Told(stream, stored, origPtr, body, r.Remaining(), []));
      AllocatedIntro();
      StartBlock(cftab, origPtr, nblock, stored, l, body, stream, p);
      code := Ok;
    }

    /** The block that has been read is made ready for output. */
    method StartBlock(cftab: array<int>, origPtr: nat, nblock: nat, stored: nat, ghost l: seq<int>,
        ghost body: seq<int>, ghost stream: seq<int>, ghost p: Piece)
      requires Allocated() && r.Valid() && store != cftab && ll4 != cftab
      requires origPtr < nblock == |l| <= store.Length && Keys(l, 256) && store[..nblock] == l &&
        InverseBwt.Cumulative(l, cftab[..], 257)
      requires Placed(stream) && Headed(Told(stream, stored, origPtr, body, r.Remaining(), []))
      requires good ==> |told| < |ps| && p == ps[|told|] && AllSane(ps) && |crcs| == |ps| && IsRuns(p.runs)
      requires good ==>
        stored == BlockCrc.Number(crcs[|told|]) && r.Remaining() == Tail(ps, crcs, combined, |told| + 1, k) &&
        Delivers(l, origPtr, PackFrom(p.runs, 0))
      modifies this`state, this`block, this`storedBlockCRC, this`cur, this`total, store, ll4, cftab
      ensures Valid() && output == old(output) && told == old(told)
      ensures state.Output? && block != null && fresh(block) && block.Valid() && block.Owed() != []
    {
      hide *;
      AllocatedParts();
      var f := StartOutput(small, store, ll4, cftab, nblock, origPtr, l);
      f.ValidParts();
      f.OwedIs();
      NoneLeft(f.stateOutCh, Rest(f.d, nblock, 1));
      OwedSome(f.d, nblock);
      if good { DeliveredData(l, origPtr, f.d, p.runs); }
      AllocatedIntro();
      TakeBlock(f, stored, Told(stream, stored, origPtr, body, r.Remaining(), []));
    }

    /** The block to put out from now on. */
    method TakeBlock(f: BlockOutput, stored: nat, ghost t: Told)
      requires Allocated() && r.Valid() && f.Valid() && f.store == store && f.ll4 == ll4 &&
        f.calculatedBlockCRC == BlockCrc.INITIAL
      requires Placed(t.at) && Headed(t) && t.stored == stored && t.data == [] && t.rest == r.Remaining()
      requires good ==>
        |told| < |ps| && AllSane(ps) && |crcs| == |ps| && IsRuns(ps[|told|].runs) &&
        t.stored == BlockCrc.Number(crcs[|told|]) && r.Remaining() == Tail(ps, crcs, combined, |told| + 1, k) &&
        !f.Broken() && f.Owed() == DataFrom(ps[|told|].runs, 0)
      modifies this`state, this`block, this`storedBlockCRC, this`cur, this`total
      ensures Valid() && state.Output? && block == f
    {
      hide *;
      PlacedParts(t.at);
      AllocatedParts();
      storedBlockCRC := stored;
      block, cur, total, state := f, t, f.Owed(), Output;
      InsideStart(blockSize100k, told, all, output, calculatedCombinedCRC, cur, total);
      InsideOwing(blockSize100k, told, cur, all, r.Remaining(), output, calculatedCombinedCRC, t.stored,
        f.calculatedBlockCRC, total, total);
      NoMore(Text(told));
      if good {
        BlockStart(ps, crcs, combined, level, k, |told|, blockSize100k, t.at, output, calculatedCombinedCRC, t.stored,
          f.Owed());
      }
      InTimeIntro(f.Broken(), r.Remaining(), f.calculatedBlockCRC, f.Owed());
      AllocatedIntro();
      WithinIntro();
    }

    /** Output of the block at hand; after its last byte its checksum is compared. Done when the next
        block can be read: then, for any input, the checksum in its header is that of the data put out for it. */
    method OutputStep(room: nat) returns (code: Code, next: bool, left: nat)
      requires Within() && state.Output? && block != null
      modifies this`state, this`output, this`calculatedCombinedCRC, this`told, this`cur,
               block`tPos, block`nblockUsed, block`k0, block`stateOutCh, block`stateOutLen, block`calculatedBlockCRC
      ensures Valid() && old(output) <= output && |output| - |old(output)| == room - left && left <= room
      ensures next ==> Between() && state.BlockHeader? && (old(block.Valid() && block.Owed() != []) ==> left < room)
      ensures next ==>
        Checked(cur) && told == old(told) + [cur] && cur.stored == storedBlockCRC && cur.at == old(cur.at) &&
        output == Text(old(told)) + cur.data
      ensures !next ==> told == old(told)
      ensures !next ==> (state.Output? && code.Ok? && left == 0) || (state.Idle? && code.DataError?)
      ensures good && !next && code.Ok? ==> Underway(ps, crcs, level, output)
      ensures good && !next && code.DataError? ==> Settled(code)
    {
      hide *;
      var corrupt;
      left, corrupt := WriteOut(room);
      WithinParts();
      next := false;
      if corrupt {
        code := Stop(DataError);
        return;
      }
      code := Ok;
      if block.nblockUsed == block.saveNblock + 1 && block.stateOutLen == 0 {
        block.AllOwed();
        next := FinishBlock();
        if !next { code := DataError; }
      } else if good {
        block.SomeOwed();
        StillOwed();
      }
    }

    /** Some of the block's data is put out. */
    method WriteOut(room: nat) returns (left: nat, corrupt: bool)
      requires Within() && state.Output? && block != null
      modifies this`output, this`cur,
               block`tPos, block`nblockUsed, block`k0, block`stateOutCh, block`stateOutLen, block`calculatedBlockCRC
      ensures Valid() && Within() && old(output) <= output && |output| - |old(output)| == room - left && left <= room
      ensures cur.at == old(cur.at) && Following() && block.Valid() && (good ==> !corrupt && !block.Broken())
      ensures old(block.Valid() && block.Owed() != []) && block.Owed() == [] ==> left < room
      ensures !corrupt ==> left == 0 || (block.nblockUsed == block.saveNblock + 1 && block.stateOutLen == 0)
    {
      hide *;
      WithinParts();
      AllocatedParts();
      ghost var owed, crc0 := block.Owed(), block.calculatedBlockCRC;
      InTimeParts(block.Broken(), r.Remaining(), crc0, owed);
      var out;
      out, corrupt := block.UnRle(room);
      OwingAll(crc0, out, block.calculatedBlockCRC, block.Owed(), owed);
      InsideWritten(blockSize100k, told, cur, all, r.Remaining(), output, calculatedCombinedCRC, storedBlockCRC, crc0,
        owed, total, out, block.calculatedBlockCRC, block.Owed());
      output := output + out;
      left := room - |out|;
      cur := cur.(data := cur.data + out);
      InTimeIntro(block.Broken(), r.Remaining(), block.calculatedBlockCRC, block.Owed());
      AllocatedIntro();
      WithinIntro();
    }

    /** In a stream, something of its data is left. */
    lemma StillOwed()
      requires good && Within() && Following() && block.Owed() != []
      ensures Underway(ps, crcs, level, output)
    {
      hide *;
      WithinParts();
      InTimeParts(block.Broken(), r.Remaining(), block.calculatedBlockCRC, block.Owed());
      InsideOwing(blockSize100k, told, cur, all, r.Remaining(), output, calculatedCombinedCRC, storedBlockCRC,
        block.calculatedBlockCRC, block.Owed(), total);
      DataLeft(ps, crcs, combined, level, k, |told|, blockSize100k, r.Remaining(), Text(told), calculatedCombinedCRC,
        storedBlockCRC, cur.data, block.calculatedBlockCRC, block.Owed(), total);
    }

    /** The checksum of a block that has been put out is compared with that in its header. */
    method FinishBlock() returns (next: bool)
      requires Within() && state.Output? && Following() && block.Owed() == []
      modifies this`state, this`calculatedCombinedCRC, this`told
      ensures Valid() && (next ==> Between() && state.BlockHeader?)
      ensures next ==>
        Checked(cur) && told == old(told) + [cur] && cur.stored == storedBlockCRC &&
        output == Text(old(told)) + cur.data
      ensures !next ==> told == old(told) && state.Idle? && (good ==> Settled(DataError))
    {
      hide *;
      WithinParts();
      AllocatedParts();
      ghost var crc := block.calculatedBlockCRC;
      InTimeParts(block.Broken(), r.Remaining(), crc, []);
      InsideOwing(blockSize100k, told, cur, all, r.Remaining(), output, calculatedCombinedCRC, storedBlockCRC, crc, [],
        total);
      if good {
        BlockDone(ps, crcs, combined, level, k, |told|, blockSize100k, r.Remaining(), Text(told),
          calculatedCombinedCRC, storedBlockCRC, cur.data, crc, total);
      }
      var calculated := BlockCrc.Finalise(block.calculatedBlockCRC);
      if BlockCrc.Number(calculated) != storedBlockCRC {
        if good {
          Refused(ps, crcs, combined, level, k, |told|, blockSize100k, r.Remaining(), Text(told),
            calculatedCombinedCRC, storedBlockCRC, total, output, r.more);
        }
        var code := Stop(DataError);
        SettledIs(code);
        return false;
      }
      InsideDone(blockSize100k, told, cur, all, r.Remaining(), output, calculatedCombinedCRC, storedBlockCRC, crc, [],
        total);
      StoredIs(cur, storedBlockCRC, crc, [], total);
      calculatedCombinedCRC := BlockCrc.Combine(calculatedCombinedCRC, calculated);
      told := told + [cur];
      state := BlockHeader;
      AllocatedIntro();
      PlacedIntro(r.Remaining());
      BetweenIntro();
      next := true;
    }

    /** BZ2_bzDecompress: output until the buffer is full or the stream ends. Whatever the input, it ends as a
        stream only if every checksum in it is right. For the blocks of a stream with any words in the places of its
        checksums, data is put out up to the first block whose checksum is wrong, and the end is the end of the
        stream exactly if none is. */
    method Decompress(room: nat) returns (code: Code, left: nat)
      requires Valid()
      modifies this, r, store, ll4, block
      ensures Valid() && (store == old(store) || fresh(store)) && (ll4 == old(ll4) || fresh(ll4)) &&
        (block == old(block) || fresh(block))
      ensures old(output) <= output && |output| - |old(output)| == room - left && left <= room
      ensures code.Ok? ==> left == 0
      ensures code.MoreInput? ==> r.Spent()
      ensures code.StreamEnd? ==> Accepted(all, output)
      ensures code.SequenceError? <==> old(state.Idle?)
      ensures !code.Ok? ==> state.Idle?
      ensures good && code.Ok? ==> Underway(ps, crcs, level, output)
      ensures good && !code.Ok? && !code.SequenceError? ==> Concluded(ps, crcs, combined, level, r.more, code, output)
    {
      hide *;
      left := room;
      while true
        invariant Valid() && (store == old(store) || fresh(store)) && (ll4 == old(ll4) || fresh(ll4)) &&
          (block == old(block) || fresh(block))
        invariant old(output) <= output && |output| - |old(output)| == room - left && left <= room
        invariant state.Idle? <==> old(state.Idle?)
        decreases left, if state.Output? && block != null && block.Valid() && block.Owed() != [] then 0 else 1
      {
        ValidParts();
        if state.Idle? { return SequenceError, left; }
        if state.Output? {
          WithinParts();
          var next;
          code, next, left := OutputStep(left);
          if !next {
            SettledIs(code);
            return;
          }
        }
        code := Advance();
        if !code.Ok? {
          SettledIs(code);
          return;
        }
      }
    }

    /** From the start of the stream, or between blocks, to the output of a block. */
    method Advance() returns (code: Code)
      requires Valid() && (state.Magic? || state.BlockHeader?)
      modifies this`state, this`blockSize100k, this`store, this`ll4, this`block, this`storedBlockCRC, this`cur,
        this`total, r, store, ll4
      ensures Valid() && output == old(output) && !code.SequenceError?
      ensures (store == old(store) || fresh(store)) && (ll4 == old(ll4) || fresh(ll4)) &&
        (block == old(block) || fresh(block))
      ensures code.Ok? ==> state.Output? && block != null && fresh(block) && block.Valid() && block.Owed() != []
      ensures !code.Ok? ==> state.Idle?
      ensures code.MoreInput? ==> r.Spent()
      ensures good && !code.Ok? ==> Settled(code)
      ensures code.StreamEnd? ==> Accepted(all, output)
    {
      hide *;
      ValidParts();
      if state.Magic? {
        code := Begin();
        if !code.Ok? {
          SettledIs(code);
          code := Stop(code);
          SettledIs(code);
          return;
        }
      }
      code := NextBlock();
    }

    lemma ValidMagic()
      requires state.Magic? && AtStart()
      ensures Valid()
    {
      hide AtStart;
    }
  }

  lemma BytesAre(bytes: seq<int>)
    requires AreBytes(bytes)
    ensures forall i :: 0 <= i < |bytes| ==> 0 <= bytes[i] < 256
  {
  }

  lemma NoMore(a: seq<int>)
    ensures a + [] == a
  {
  }

  lemma HeadedIntro(t: Told)
    requires t.at == Put(0x31, 8, HeaderRest(t.stored, t.origPtr, t.body)) && Ends(t.rest, t.body)
    ensures Headed(t)
  {
    hide HeaderRest;
    hide Put;
  }

  /** The input ends before the stream does. */
  lemma CutShort(ps: seq<Piece>, crcs: seq<bv32>, combined: bv32, level: nat, k: seq<int>, i: nat, bs: nat,
      stream: seq<int>, output: seq<int>, comb: bv32, more: seq<int>)
    requires AtHeader(ps, crcs, combined, level, k, i, bs, stream, output, comb)
    ensures more != [] ==> Concluded(ps, crcs, combined, level, more, MoreInput, output)
  {
    hide AllSane;
    hide AllFit;
    hide Genuine;
    hide Goal;
    HeaderParts(ps, crcs, combined, level, k, i, bs, stream, output, comb);
    HeaderGoal(ps, crcs, combined, level, k, i, bs, stream, output, comb);
  }

  /** Behind the last block, the combined checksum decides. */
  lemma AtTheEnd(ps: seq<Piece>, crcs: seq<bv32>, combined: bv32, level: nat, k: seq<int>, i: nat, bs: nat,
      stream: seq<int>, output: seq<int>, comb: bv32, more: seq<int>)
    requires AtHeader(ps, crcs, combined, level, k, i, bs, stream, output, comb) && i == |ps|
    ensures combined == comb && more == [] ==> Concluded(ps, crcs, combined, level, more, StreamEnd, output)
    ensures combined != comb ==> Concluded(ps, crcs, combined, level, more, DataError, output)
  {
    hide AllSane;
    hide AllFit;
    hide Genuine;
    hide Goal;
    HeaderParts(ps, crcs, combined, level, k, i, bs, stream, output, comb);
    HeaderGoal(ps, crcs, combined, level, k, i, bs, stream, output, comb);
  }

  /** A block with a wrong checksum is the last that is put out. */
  lemma Refused(ps: seq<Piece>, crcs: seq<bv32>, combined: bv32, level: nat, k: seq<int>, i: nat, bs: nat,
      stream: seq<int>, before: seq<int>, comb: bv32, stored: nat, total: seq<int>, output: seq<int>, more: seq<int>)
    requires InBlock(ps, crcs, combined, level, k, i, bs, stream, before, comb, stored, total)
    requires AllSane(ps) && |crcs| == |ps| && output == Goal(ps, crcs) && !Genuine(ps, crcs, combined)
    ensures Concluded(ps, crcs, combined, level, more, DataError, output)
  {
    hide AllSane;
    hide AllFit;
    hide Genuine;
    hide Goal;
    hide IsRuns;
    hide Tail;
    hide DataOf;
    hide Right;
    hide BlockCrc.Combined;
    hide DataFrom;
  }

  lemma StoredIs(t: Told, stored: nat, crc: bv32, owed: seq<int>, total: seq<int>)
    requires Checked(t) && Owing(BlockCrc.INITIAL, t.data, crc, owed, total) &&
      stored == BlockCrc.Number(BlockCrc.Finalise(crc))
    ensures t.stored == stored
  {
    hide BlockCrc.Over;
    hide BlockCrc.Finalise;
    hide BlockCrc.Number;
    hide Headed;
  }

  lemma PacksIntro(ll16: seq<int>, ll4: seq<int>)
    requires |ll4| == (|ll16| + 1) / 2 && forall i :: 0 <= i < |ll4| ==> 0 <= ll4[i] < 256
    ensures InverseBwt.Packs(ll16, ll4)
  {
  }

  lemma PacksSame(ll16: seq<int>, ll16': seq<int>, ll4: seq<int>)
    requires InverseBwt.Packs(ll16, ll4) && |ll16'| == |ll16|
    ensures InverseBwt.Packs(ll16', ll4)
  {
  }

  lemma OwingAll(crc0: bv32, out: seq<int>, crc: bv32, owed: seq<int>, all: seq<int>)
    requires Owing(crc0, out, crc, owed, all)
    ensures |out| + |owed| == |all|
  {
  }

  lemma MagicIntro(ps: seq<Piece>, crcs: seq<bv32>, combined: bv32, level: nat, k: seq<int>, stream: seq<int>)
    requires Expected(ps, crcs, level) && AllSane(ps) && |crcs| == |ps| &&
      stream == Whole(level, ps, crcs, combined, k)
    ensures AtMagic(ps, crcs, combined, level, k, stream, [])
  {
    hide Whole;
    hide Expected;
  }
}
