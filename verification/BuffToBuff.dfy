/** bzlib.c, BZ2_bzBuffToBuffCompress and BZ2_bzBuffToBuffDecompress: one buffer to another in one
    call, and that the second undoes the first. */
module BuffToBuff {
  import opened ByteSeq
  import opened BitIO
  import opened StreamFormat
  import Bits
  import BlockCrc
  import opened RunLength
  import C = Compressor
  import D = Decompressor

  /** How a call ends, and what it has put in the destination. */
  datatype Outcome = Done(dest: seq<int>) | BufferFull(dest: seq<int>) | BadParameter | UnexpectedEof | SequenceError |
    Failed(why: D.Code)

  /** The bytes are a stream of blocks, with words in the places of the checksums; data is what a decompressor puts
      out, and the stream is genuine if every checksum is right. */
  ghost predicate StreamOf(bytes: seq<int>, data: seq<int>, genuine: bool) {
    exists level: nat, ps, crcs, combined :: Holds(bytes, data, genuine, level, ps, crcs, combined)
  }

  ghost predicate Holds(bytes: seq<int>, data: seq<int>, genuine: bool, level: nat, ps: seq<Piece>, crcs: seq<bv32>,
      combined: bv32) {
    AreBytes(bytes) && D.Expected(ps, crcs, level) && data == D.Goal(ps, crcs) &&
    genuine == D.Genuine(ps, crcs, combined) && exists n ::
    0 <= n < 8 && Bits.BytesBits(bytes) == Whole(level, ps, crcs, combined, Bits.BitsOf(0, n))
  }

  /** The stream a compressor makes of the data in one go: only its last block may be less than full. */
  ghost predicate Compressed(bytes: seq<int>, data: seq<int>, level: nat) {
    exists ps, cuts :: CompressedAs(bytes, data, level, ps, cuts)
  }

  ghost predicate CompressedAs(bytes: seq<int>, data: seq<int>, level: nat, ps: seq<Piece>, cuts: set<int>) {
    1 <= level <= 9 && C.Complete(level, ps, cuts, bytes) && cuts <= {|ps| - 1} && AllSane(ps) &&
    data == DataOf(ps, |ps|)
  }

  lemma CompressedIntro(bytes: seq<int>, data: seq<int>, level: nat, ps: seq<Piece>, cuts: set<int>)
    requires 1 <= level <= 9 && C.Complete(level, ps, cuts, bytes) && C.Accounted(ps, data, []) &&
      C.OneCut({}, cuts, |ps|)
    ensures Compressed(bytes, data, level)
  {
    hide C.Complete;
    C.AccountedAll(ps, data);
    assert CompressedAs(bytes, data, level, ps, cuts);
  }

  /** The beginning of such a stream, and not all of it. */
  ghost predicate Interrupted(dest: seq<int>, data: seq<int>, level: nat) {
    exists ps, cuts: set<int> :: C.Unfinished(level, ps, cuts, dest, data)
  }

  lemma InterruptedIntro(dest: seq<int>, data: seq<int>, level: nat, ps: seq<Piece>, cuts: set<int>)
    requires C.Unfinished(level, ps, cuts, dest, data)
    ensures Interrupted(dest, data, level)
  {
    hide C.Unfinished;
  }

  /** Its checksums are right. */
  lemma CompressedStream(bytes: seq<int>, data: seq<int>, level: nat)
    requires Compressed(bytes, data, level)
    ensures StreamOf(bytes, data, true) && AreBytes(bytes)
  {
    hide Whole;
    hide Sane;
    hide AllFit;
    hide CrcOf;
    hide BlockCrc.Combined;
    hide C.Dense;
    hide DataOf;
    hide D.Goal;
    var ps, cuts :| CompressedAs(bytes, data, level, ps, cuts);
    var crcs := Crcs(ps);
    D.GoalGenuine(ps, crcs);
    assert Holds(bytes, data, true, level, ps, crcs, BlockCrc.Combined(crcs));
  }

  /** BZ2_bzBuffToBuffCompress */
  method BuffToBuffCompress(source: seq<int>, destLen: nat, blockSize100k: int, workFactor: int) returns (o: Outcome)
    requires AreBytes(source)
    ensures o.Done? ==> |o.dest| <= destLen && blockSize100k >= 0 && Compressed(o.dest, source, blockSize100k)
    ensures o.BadParameter? <==> blockSize100k < 1 || blockSize100k > 9 || workFactor < 0 || workFactor > 250
    ensures o.BufferFull? ==> |o.dest| == destLen && blockSize100k >= 0 && Interrupted(o.dest, source, blockSize100k)
    ensures o.SequenceError? ==> source == [] && destLen == 0
    ensures !o.UnexpectedEof? && !o.Failed?
  {
    hide *;
    if blockSize100k < 1 || blockSize100k > 9 || workFactor < 0 || workFactor > 250 { return BadParameter; }
    var factor := workFactor;
    if factor == 0 { factor := 30; }
    var strm := new C.Compressor(blockSize100k, factor);
    strm.SetBuffers(source, destLen);
    strm.WrongCallIs(C.FINISH);
    var ret := strm.Compress(C.FINISH);
    if ret.FinishOk? {
      C.AppendNone2([], source);
      InterruptedIntro(strm.output, source, blockSize100k, strm.ps, strm.cuts);
      return BufferFull(strm.output);
    }
    if !ret.StreamEnd? {
      assert ret.SequenceError?;
      assert strm.output == [];
      NotEmpty(blockSize100k, strm.ps, strm.cuts, strm.output);
      return SequenceError;
    }
    C.AppendNone2([], source);
    C.AppendNone(strm.consumed, strm.input);
    CompressedIntro(strm.output, source, blockSize100k, strm.ps, strm.cuts);
    o := Done(strm.output);
  }

  /** A whole stream is not empty. */
  lemma NotEmpty(level: nat, ps: seq<Piece>, cuts: set<int>, bytes: seq<int>)
    ensures C.Complete(level, ps, cuts, bytes) ==> bytes != []
  {
    hide PiecesBits;
    hide Sane;
    hide Trailer;
    hide C.Dense;
    if C.Complete(level, ps, cuts, bytes) {
      var n :| 0 <= n < 8 &&
        Bits.BytesBits(bytes) == Whole(level, ps, Crcs(ps), BlockCrc.Combined(Crcs(ps)), Bits.BitsOf(0, n));
      assert |Whole(level, ps, Crcs(ps), BlockCrc.Combined(Crcs(ps)), Bits.BitsOf(0, n))| >= 8;
    }
  }

  /** Any input at all: only one whose checksums are all right is decompressed to the end. */
  ghost predicate AcceptedBytes(source: seq<int>, dest: seq<int>) {
    AreBytes(source) && D.Accepted(Bits.BytesBits(source), dest)
  }

  lemma HoldsParts(full: seq<int>, source: seq<int>, data: seq<int>, genuine: bool)
      returns (level: nat, ps: seq<Piece>, crcs: seq<bv32>, combined: bv32, k: seq<int>, more: seq<int>)
    requires StreamOf(full, data, genuine) && source <= full && AreBytes(source)
    ensures D.Expected(ps, crcs, level) && AllSane(ps) && |crcs| == |ps|
    ensures forall i :: 0 <= i < |source| ==> 0 <= source[i] < 256
    ensures Bits.BytesBits(source) + more == Whole(level, ps, crcs, combined, k) && Bits.IsBits(more)
    ensures (more == [] <==> source == full) && (more == [] || |more| > |k|)
    ensures data == D.Goal(ps, crcs) && genuine == D.Genuine(ps, crcs, combined)
  {
    hide Whole;
    hide Sane;
    hide AllFit;
    hide D.Goal;
    hide D.Genuine;
    hide Bits.BytesBits;
    hide Bits.BitsOf;
    level, ps, crcs, combined :| Holds(full, data, genuine, level, ps, crcs, combined);
    var n :| 0 <= n < 8 && Bits.BytesBits(full) == Whole(level, ps, crcs, combined, Bits.BitsOf(0, n));
    k := Bits.BitsOf(0, n);
    var end := full[|source|..];
    assert full == source + end;
    Bits.BytesConcat(source, end);
    more := Bits.BytesBits(end);
  }

  lemma AcceptedIntro(source: seq<int>, more: seq<int>, dest: seq<int>)
    requires AreBytes(source) && D.Accepted(Bits.BytesBits(source) + more, dest) && more == []
    ensures AcceptedBytes(source, dest)
  {
    hide D.Accepted;
    hide Bits.BytesBits;
    assert Bits.BytesBits(source) + more == Bits.BytesBits(source);
  }

  /** BZ2_bzBuffToBuffDecompress on any bytes. Of a stream the data is given back, if there is room for it, and
      the checksums are all right; the beginning of a stream is never taken for a whole one. */
  method BuffToBuffDecompress(source: seq<int>, destLen: nat, small: bool, ghost full: seq<int>,
      ghost data: seq<int>, ghost genuine: bool) returns (o: Outcome)
    requires AreBytes(source)
    ensures o.Done? ==> |o.dest| <= destLen && AcceptedBytes(source, o.dest)
    ensures o.BufferFull? ==> |o.dest| == destLen
    ensures StreamOf(source, data, genuine) && source == full ==>
      o == if |data| > destLen then BufferFull(data[..destLen]) else if genuine then Done(data) else Failed(D.DataError)
    ensures StreamOf(full, data, genuine) && source < full ==>
      o == UnexpectedEof || (o.BufferFull? && o.dest <= data) || (!genuine && o == Failed(D.DataError))
  {
    hide *;
    ghost var good := StreamOf(full, data, genuine) && source <= full;
    ghost var level, ps, crcs, combined, k, more := 1, [], [], 0, [], [];
    BitsNone();
    if good { level, ps, crcs, combined, k, more := HoldsParts(full, source, data, genuine); }
    SourceBytes(source);
    var strm := new D.Decompressor(source, small, more, good, ps, crcs, combined, level, k);
    var ret, left := strm.Decompress(destLen);
    if good && ret.Ok? {
      UnderwayPrefix(ps, crcs, level, strm.output, destLen);
    }
    if good && !ret.Ok? { D.ConcludedParts(ps, crcs, combined, level, more, ret, strm.output); }
    if ret.Ok? || ret.MoreInput? {
      return if left > 0 then UnexpectedEof else BufferFull(strm.output);
    }
    if !ret.StreamEnd? { return Failed(ret); }
    AcceptedIntro(source, more, strm.output);
    o := Done(strm.output);
  }

  lemma BitsNone()
    ensures Bits.IsBits([])
  {
  }

  lemma SourceBytes(source: seq<int>)
    requires AreBytes(source)
    ensures forall i :: 0 <= i < |source| ==> 0 <= source[i] < 256
  {
  }

  lemma UnderwayPrefix(ps: seq<Piece>, crcs: seq<bv32>, level: nat, output: seq<int>, n: nat)
    requires D.Underway(ps, crcs, level, output) && |output| == n
    ensures AllSane(ps) && |crcs| == |ps| && n < |D.Goal(ps, crcs)| && output == D.Goal(ps, crcs)[..n]
  {
    hide AllSane;
    hide AllFit;
    hide D.Goal;
  }

  /** What has been compressed decompresses to itself. */
  method RoundTrip(source: seq<int>, destLen: nat, blockSize100k: int, workFactor: int, small: bool)
      returns (there: Outcome, back: Outcome)
    requires AreBytes(source)
    ensures there.Done? ==> back == Done(source)
    ensures there.BadParameter? <==> blockSize100k < 1 || blockSize100k > 9 || workFactor < 0 || workFactor > 250
    ensures there.BufferFull? ==> |there.dest| == destLen
    ensures there.SequenceError? ==> source == [] && destLen == 0
  {
    hide *;
    there := BuffToBuffCompress(source, destLen, blockSize100k, workFactor);
    back := UnexpectedEof;
    if there.Done? {
      CompressedStream(there.dest, source, blockSize100k);
      back := BuffToBuffDecompress(there.dest, |source|, small, there.dest, source, true);
    }
  }

  /** A stream from the compressor in which one block's checksum is replaced by another word is not genuine, and
      gives no more than the data up to that block. */
  lemma OneWordWrong(level: nat, ps: seq<Piece>, j: nat, word: bv32, combined: bv32, n: nat, bytes: seq<int>)
    requires AllSane(ps) && D.Expected(ps, Crcs(ps), level) && j < |ps| && word != CrcOf(ps[j])
    requires AreBytes(bytes) && n < 8
    requires Bits.BytesBits(bytes) == Whole(level, ps, Crcs(ps)[j := word], combined, Bits.BitsOf(0, n))
    ensures StreamOf(bytes, DataOf(ps, j + 1), false)
  {
    hide Whole;
    hide Sane;
    hide AllFit;
    hide CrcOf;
    hide DataFrom;
    hide BlockCrc.Combined;
    hide Bits.BytesBits;
    hide Bits.BitsOf;
    var crcs := Crcs(ps)[j := word];
    SaneParts(ps[j]);
    assert D.Right(ps, crcs, j);
    D.UptoRight(ps, crcs, j);
    assert D.Upto(ps, crcs, j) == j + 1;
    assert crcs[j] != CrcOf(ps[j]);
    assert !D.Right(ps, crcs, |ps|);
    assert Holds(bytes, DataOf(ps, j + 1), false, level, ps, crcs, combined);
  }
}
