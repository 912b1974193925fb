/** A whole compressed stream: header, blocks, trailer. */
module StreamFormat {
  import opened BlockFormat
  import opened BlockEncoder
  import opened RunLength
  import BlockCrc
  import SelectorCodes

  /** One block of a stream: the runs it was made from, and how it was coded. */
  datatype Piece = Piece(runs: seq<Run>, origPtr: nat, c: Coded, codes: seq<nat>, n: nat)

  ghost predicate Sane(p: Piece) {
    IsRuns(p.runs) && Encodes(p.c, p.n, p.origPtr, PackFrom(p.runs, 0)) && Sound(p.c, p.n + 2) && Carries(p.c, p.codes)
  }

  ghost predicate AllSane(ps: seq<Piece>) {
    forall i {:trigger ps[i]} :: 0 <= i < |ps| ==> Sane(ps[i])
  }

  /** The checksum of the data of a block. */
  ghost function CrcOf(p: Piece): (c: bv32)
    requires IsRuns(p.runs)
  {
    BlockCrc.Finalise(BlockCrc.Over(BlockCrc.INITIAL, DataFrom(p.runs, 0)))
  }

  /** The block with a checksum word, its own or another. */
  ghost function PieceBits(p: Piece, crc: nat, k: seq<int>): (s: seq<int>)
    requires Sound(p.c, p.n + 2) && |p.codes| == |p.c.selectors|
  {
    Block(crc, p.origPtr, p.c, p.codes, p.n + 2, k)
  }

  /** The blocks from i on, each with its checksum word. */
  ghost function PiecesBits(ps: seq<Piece>, crcs: seq<bv32>, i: nat, k: seq<int>): (s: seq<int>)
    requires AllSane(ps) && |crcs| == |ps| && i <= |ps|
    decreases |ps| - i
  {
    if i == |ps| then k else PieceBits(ps[i], BlockCrc.Number(crcs[i]), PiecesBits(ps, crcs, i + 1, k))
  }

  /** The data of the first i blocks. */
  ghost function DataOf(ps: seq<Piece>, i: nat): (d: seq<int>)
    requires AllSane(ps) && i <= |ps|
  {
    if i == 0 then [] else DataOf(ps, i - 1) + DataFrom(ps[i - 1].runs, 0)
  }

  /** The checksums of the blocks. */
  ghost function Crcs(ps: seq<Piece>): (crcs: seq<bv32>)
    requires AllSane(ps)
    ensures |crcs| == |ps| && forall i :: 0 <= i < |ps| ==> crcs[i] == CrcOf(ps[i])
  {
    seq(|ps|, i requires 0 <= i < |ps| => CrcOf(ps[i]))
  }

  ghost function StreamHeader(level: nat, k: seq<int>): (s: seq<int>) {
    Put(0x42, 8, Put(0x5a, 8, Put(0x68, 8, Put(0x30 + level, 8, k))))
  }

  ghost function Trailer(combined: bv32, k: seq<int>): (s: seq<int>) {
    Put(0x17, 8,
    Put(0x72, 8, Put(0x45, 8, Put(0x38, 8, Put(0x50, 8, Put(0x90, 8, Word(BlockCrc.Number(combined), k)))))))
  }

  /** A stream with a checksum word for each block, and one for them all. */
  ghost function Whole(level: nat, ps: seq<Piece>, crcs: seq<bv32>, combined: bv32, k: seq<int>): (s: seq<int>)
    requires AllSane(ps) && |crcs| == |ps|
  {
    StreamHeader(level, PiecesBits(ps, crcs, 0, Trailer(combined, k)))
  }

  /* ---------- one more block ---------- */

  lemma {:induction false} PiecesAppend(ps: seq<Piece>, crcs: seq<bv32>, i: nat, j: seq<int>, k: seq<int>)
    requires AllSane(ps) && |crcs| == |ps| && i <= |ps|
    ensures PiecesBits(ps, crcs, i, j) + k == PiecesBits(ps, crcs, i, j + k)
    decreases |ps| - i
  {
    hide Sane;
    hide PieceBits;
    if i < |ps| {
      SaneParts(ps[i]);
      PiecesAppend(ps, crcs, i + 1, j, k);
      PieceAppend(ps[i], BlockCrc.Number(crcs[i]), PiecesBits(ps, crcs, i + 1, j), k);
    }
  }

  lemma SaneParts(p: Piece)
    requires Sane(p)
    ensures Sound(p.c, p.n + 2) && |p.codes| == |p.c.selectors| && IsRuns(p.runs)
  {
    hide Encodes;
    hide Sound;
    hide SelectorCodes.Codes;
    hide PackFrom;
  }

  lemma PieceIs(p: Piece, crc: nat, k: seq<int>)
    requires Sound(p.c, p.n + 2) && |p.codes| == |p.c.selectors|
    ensures PieceBits(p, crc, k) == Block(crc, p.origPtr, p.c, p.codes, p.n + 2, k)
  {
    hide Block;
    hide Sound;
  }

  lemma PieceAppend(p: Piece, crc: nat, j: seq<int>, k: seq<int>)
    requires Sound(p.c, p.n + 2) && |p.codes| == |p.c.selectors|
    ensures PieceBits(p, crc, j) + k == PieceBits(p, crc, j + k)
  {
    hide *;
    PieceIs(p, crc, j);
    PieceIs(p, crc, j + k);
    BlockAppend(crc, p.origPtr, p.c, p.codes, p.n + 2, j);
    BlockAppend(crc, p.origPtr, p.c, p.codes, p.n + 2, j + k);
    var bits := Block(crc, p.origPtr, p.c, p.codes, p.n + 2, []);
    assert bits + j + k == bits + (j + k);
  }

  lemma {:induction false} PiecesMore(ps: seq<Piece>, crcs: seq<bv32>, p: Piece, crc: bv32, i: nat, k: seq<int>)
    requires AllSane(ps) && |crcs| == |ps| && Sane(p) && i <= |ps| && Sound(p.c, p.n + 2) &&
      |p.codes| == |p.c.selectors|
    ensures AllSane(ps + [p]) &&
      PiecesBits(ps + [p], crcs + [crc], i, k) == PiecesBits(ps, crcs, i, PieceBits(p, BlockCrc.Number(crc), k))
    decreases |ps| - i
  {
    hide Sane;
    hide PieceBits;
    hide BlockCrc.Number;
    var qs := ps + [p];
    assert AllSane(qs);
    if i < |ps| {
      PiecesMore(ps, crcs, p, crc, i + 1, k);
      assert qs[i] == ps[i] && (crcs + [crc])[i] == crcs[i];
    } else {
      assert qs[i] == p && (crcs + [crc])[i] == crc;
      assert PiecesBits(qs, crcs + [crc], i + 1, k) == k;
    }
  }

  lemma {:induction false} DataMore(ps: seq<Piece>, p: Piece, i: nat)
    requires AllSane(ps) && Sane(p) && i <= |ps|
    ensures AllSane(ps + [p]) && DataOf(ps + [p], i) == DataOf(ps, i)
    decreases i
  {
    hide Sane;
    hide DataFrom;
    assert AllSane(ps + [p]);
    if i > 0 {
      DataMore(ps, p, i - 1);
      assert (ps + [p])[i - 1] == ps[i - 1];
    }
  }

  lemma CrcsMore(ps: seq<Piece>, p: Piece)
    requires AllSane(ps) && Sane(p)
    ensures AllSane(ps + [p]) && IsRuns(p.runs) && Crcs(ps + [p]) == Crcs(ps) + [CrcOf(p)]
  {
    hide Sane;
    hide CrcOf;
    SaneParts(p);
    var qs := ps + [p];
    assert AllSane(qs);
    forall i | 0 <= i < |qs| ensures Crcs(qs)[i] == (Crcs(ps) + [CrcOf(p)])[i] {
      if i < |ps| { assert qs[i] == ps[i]; }
    }
  }

  /** No block is longer than the level allows. */
  ghost predicate Fits(level: nat, p: Piece) {
    IsRuns(p.runs) && |PackFrom(p.runs, 0)| <= 100000 * level - 10
  }

  ghost predicate AllFit(level: nat, ps: seq<Piece>) {
    forall i {:trigger ps[i]} :: 0 <= i < |ps| ==> Fits(level, ps[i])
  }

  lemma FitMore(level: nat, ps: seq<Piece>, p: Piece)
    requires AllFit(level, ps) && Fits(level, p)
    ensures AllFit(level, ps + [p])
  {
    hide Fits;
  }

  /** What a compressor has written once it has written blocks ps. */
  ghost predicate Begun(level: nat, ps: seq<Piece>, written: seq<int>) {
    AllSane(ps) && AllFit(level, ps) && written == StreamHeader(level, PiecesBits(ps, Crcs(ps), 0, []))
  }

  lemma BegunMore(level: nat, ps: seq<Piece>, p: Piece, before: seq<int>, after: seq<int>)
    requires Begun(level, ps, before) && Sane(p) && Fits(level, p) && IsRuns(p.runs) && Sound(p.c, p.n + 2) &&
      |p.codes| == |p.c.selectors| &&
      after == before + PieceBits(p, BlockCrc.Number(CrcOf(p)), [])
    ensures Begun(level, ps + [p], after)
    ensures DataOf(ps + [p], |ps| + 1) == DataOf(ps, |ps|) + DataFrom(p.runs, 0)
    ensures BlockCrc.Combined(Crcs(ps + [p])) == BlockCrc.Combine(BlockCrc.Combined(Crcs(ps)), CrcOf(p))
  {
    hide Sane;
    hide PieceBits;
    hide PiecesBits;
    hide CrcOf;
    hide Crcs;
    hide DataFrom;
    hide StreamHeader;
    hide BlockCrc.Combine;
    hide BlockCrc.Combined;
    hide Fits;
    var crcs, crc := Crcs(ps), CrcOf(p);
    var bits := PieceBits(p, BlockCrc.Number(crc), []);
    FitMore(level, ps, p);
    CrcsMore(ps, p);
    BlockCrc.CombinedNext(crcs, crc);
    PiecesMore(ps, crcs, p, crc, 0, []);
    PiecesAppend(ps, crcs, 0, [], bits);
    assert [] + bits == bits;
    HeaderAppends(level, PiecesBits(ps, crcs, 0, []), bits);
    DataMore(ps, p, |ps|);
    assert (ps + [p])[|ps|] == p;
  }

  lemma HeaderAppends(level: nat, j: seq<int>, k: seq<int>)
    ensures StreamHeader(level, j) + k == StreamHeader(level, j + k)
  {
    hide Put;
    PutAppend(0x30 + level, 8, j, k);
    PutAppend(0x68, 8, Put(0x30 + level, 8, j), k);
    PutAppend(0x5a, 8, Put(0x68, 8, Put(0x30 + level, 8, j)), k);
    PutAppend(0x42, 8, Put(0x5a, 8, Put(0x68, 8, Put(0x30 + level, 8, j))), k);
  }

  lemma TrailerAppends(combined: bv32, j: seq<int>, k: seq<int>)
    ensures Trailer(combined, j) + k == Trailer(combined, j + k)
  {
    hide Put;
    hide Word;
    hide BlockCrc.Number;
    var w := Word(BlockCrc.Number(combined), j);
    WordAppend(BlockCrc.Number(combined), j, k);
    PutAppend(0x90, 8, w, k);
    PutAppend(0x50, 8, Put(0x90, 8, w), k);
    PutAppend(0x38, 8, Put(0x50, 8, Put(0x90, 8, w)), k);
    PutAppend(0x45, 8, Put(0x38, 8, Put(0x50, 8, Put(0x90, 8, w))), k);
    PutAppend(0x72, 8, Put(0x45, 8, Put(0x38, 8, Put(0x50, 8, Put(0x90, 8, w)))), k);
    PutAppend(0x17, 8, Put(0x72, 8, Put(0x45, 8, Put(0x38, 8, Put(0x50, 8, Put(0x90, 8, w))))), k);
  }

  /** With the trailer, and whatever fills the last byte, the stream is whole. */
  lemma WholeDone(level: nat, ps: seq<Piece>, combined: bv32, before: seq<int>, k: seq<int>)
    requires Begun(level, ps, before)
    ensures AllSane(ps) && AllFit(level, ps) &&
      before + Trailer(combined, []) + k == Whole(level, ps, Crcs(ps), combined, k)
  {
    hide Sane;
    hide Fits;
    hide PiecesBits;
    hide StreamHeader;
    hide Trailer;
    var crcs := Crcs(ps);
    var t := Trailer(combined, []);
    TrailerAppends(combined, [], k);
    assert [] + k == k;
    var tk := Trailer(combined, k);
    PiecesAppend(ps, crcs, 0, [], tk);
    assert [] + tk == tk;
    HeaderAppends(level, PiecesBits(ps, crcs, 0, []), tk);
    assert before + t + k == before + (t + k);
  }
}
