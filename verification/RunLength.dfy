/** The run-length stage in front of the block sort: a block holds runs of up to 255 equal bytes, a
    run of four or more as four copies and a count of the rest. */
module RunLength {
  import opened ByteSeq
  import opened MtfSymbols

  /* ---------- what the decompressor makes of a block ---------- */

  ghost predicate FourEqual(s: seq<int>) {
    |s| >= 4 && s[0] == s[1] == s[2] == s[3]
  }

  /** The data a block s stands for. x is the byte the decoder would fetch after the last. */
  ghost function Expand(s: seq<int>, x: int): (d: seq<int>)
    requires AreBytes(s) && 0 <= x < 256
    ensures AreBytes(d)
  {
    if s == [] then []
    else if FourEqual(s) then
      if |s| == 4 then Repeat(s[0], 4 + x) else Repeat(s[0], 4 + s[4]) + Expand(s[5..], x)
    else [s[0]] + Expand(s[1..], x)
  }

  /** A block that ends in four equal bytes without a count. */
  ghost predicate Overruns(s: seq<int>) {
    if s == [] then false
    else if FourEqual(s) then |s| == 4 || Overruns(s[5..])
    else Overruns(s[1..])
  }

  /* ---------- what the compressor puts in a block ---------- */

  datatype Run = Run(ch: int, len: int)

  ghost function Pack(r: Run): (s: seq<int>)
    requires r.len >= 1
  {
    if r.len < 4 then Repeat(r.ch, r.len) else [r.ch, r.ch, r.ch, r.ch, r.len - 4]
  }

  /** Runs as they are formed: a run is only followed by one of the same byte if it was full. */
  ghost predicate IsRuns(runs: seq<Run>) {
    (forall i {:trigger runs[i]} :: 0 <= i < |runs| ==> 0 <= runs[i].ch < 256 && 1 <= runs[i].len <= 255) &&
    forall i, j :: 0 <= i && j == i + 1 < |runs| ==> runs[i].len == 255 || runs[i].ch != runs[j].ch
  }

  /** The block bytes of the runs from i on. */
  ghost function PackFrom(runs: seq<Run>, i: nat): (s: seq<int>)
    requires IsRuns(runs) && i <= |runs|
    ensures forall k :: 0 <= k < |s| ==> 0 <= s[k] < 256
    ensures i < |runs| ==> |s| > 0 && s[0] == runs[i].ch
    decreases |runs| - i
  {
    if i == |runs| then [] else Pack(runs[i]) + PackFrom(runs, i + 1)
  }

  /** The data of the runs from i on. */
  ghost function DataFrom(runs: seq<Run>, i: nat): (s: seq<int>)
    requires IsRuns(runs) && i <= |runs|
    ensures forall k :: 0 <= k < |s| ==> 0 <= s[k] < 256
    decreases |runs| - i
  {
    if i == |runs| then [] else Repeat(runs[i].ch, runs[i].len) + DataFrom(runs, i + 1)
  }

  /** Up to three equal bytes before a different one, or at the end, stand for themselves. */
  lemma {:induction false} ExpandLiterals(c: int, n: nat, rest: seq<int>, x: int)
    requires n <= 3 && 0 <= c < 256 && 0 <= x < 256 && AreBytes(rest) && (rest == [] || rest[0] != c)
    ensures Expand(Repeat(c, n) + rest, x) == Repeat(c, n) + Expand(rest, x)
    ensures Overruns(Repeat(c, n) + rest) == Overruns(rest)
    decreases n
  {
    hide Expand;
    hide Overruns;
    hide FourEqual;
    var s := Repeat(c, n) + rest;
    if n == 0 {
      assert s == rest;
      assert Repeat(c, 0) + Expand(rest, x) == Expand(rest, x);
    } else {
      LiteralFirst(c, n, rest);
      ExpandLiteral(s, x);
      ExpandLiterals(c, n - 1, rest, x);
      assert [c] + (Repeat(c, n - 1) + Expand(rest, x)) == Repeat(c, n) + Expand(rest, x);
    }
  }

  lemma LiteralFirst(c: int, n: nat, rest: seq<int>)
    requires 1 <= n <= 3 && (rest == [] || rest[0] != c)
    ensures var s := Repeat(c, n) + rest; |s| > 0 && s[0] == c && !FourEqual(s) && s[1..] == Repeat(c, n - 1) + rest
  {
    var s := Repeat(c, n) + rest;
    if |s| >= 4 { assert s[n] != s[0]; }
  }

  lemma ExpandRun(s: seq<int>, x: int)
    requires AreBytes(s) && 0 <= x < 256 && FourEqual(s) && |s| > 4
    ensures AreBytes(s[5..]) && Expand(s, x) == Repeat(s[0], 4 + s[4]) + Expand(s[5..], x) &&
      Overruns(s) == Overruns(s[5..])
  {
  }

  lemma ExpandLiteral(s: seq<int>, x: int)
    requires AreBytes(s) && 0 <= x < 256 && |s| > 0 && !FourEqual(s)
    ensures Expand(s, x) == [s[0]] + Expand(s[1..], x) && Overruns(s) == Overruns(s[1..])
  {
  }

  /** The decompressor gets back the data of the runs. */
  lemma {:induction false} ExpandPacked(runs: seq<Run>, i: nat, x: int)
    requires IsRuns(runs) && i <= |runs| && 0 <= x < 256
    ensures Expand(PackFrom(runs, i), x) == DataFrom(runs, i) && !Overruns(PackFrom(runs, i))
    decreases |runs| - i
  {
    hide Expand;
    hide Overruns;
    hide IsRuns;
    if i == |runs| {
      ExpandNone(x);
    } else {
      var r, rest := runs[i], PackFrom(runs, i + 1);
      RunLong(runs, i);
      ExpandPacked(runs, i + 1, x);
      if r.len < 4 {
        RestDiffers(runs, i);
        ExpandLiterals(r.ch, r.len, rest, x);
      } else {
        var s := Pack(r) + rest;
        assert FourEqual(s) && s[5..] == rest && s[4] == r.len - 4;
        ExpandRun(s, x);
      }
    }
  }

  lemma ExpandNone(x: int)
    requires 0 <= x < 256
    ensures Expand([], x) == [] && !Overruns([])
  {
  }

  /** After a short run comes another byte. */
  lemma RestDiffers(runs: seq<Run>, i: nat)
    requires IsRuns(runs) && i < |runs| && runs[i].len < 4
    ensures var rest := PackFrom(runs, i + 1); rest == [] || rest[0] != runs[i].ch
  {
  }

  lemma RunLong(runs: seq<Run>, i: nat)
    requires IsRuns(runs) && i < |runs|
    ensures 0 <= runs[i].ch < 256 && 1 <= runs[i].len <= 255
  {
  }

  /** One more run. */
  lemma {:induction false} PackMore(runs: seq<Run>, r: Run, i: nat)
    requires IsRuns(runs) && IsRuns(runs + [r]) && i <= |runs| && r.len >= 1
    ensures PackFrom(runs + [r], i) == PackFrom(runs, i) + Pack(r)
    ensures DataFrom(runs + [r], i) == DataFrom(runs, i) + Repeat(r.ch, r.len)
    decreases |runs| - i
  {
    hide Pack;
    hide IsRuns;
    hide Repeat;
    var more := runs + [r];
    if i == |runs| {
      assert PackFrom(more, i + 1) == [] && DataFrom(more, i + 1) == [];
      assert Pack(r) + [] == [] + Pack(r);
      assert Repeat(r.ch, r.len) + [] == [] + Repeat(r.ch, r.len);
    } else {
      PackMore(runs, r, i + 1);
      assert more[i] == runs[i];
      RunLong(runs, i);
      var p, q := Pack(runs[i]), Repeat(runs[i].ch, runs[i].len);
      assert p + (PackFrom(runs, i + 1) + Pack(r)) == p + PackFrom(runs, i + 1) + Pack(r);
      assert q + (DataFrom(runs, i + 1) + Repeat(r.ch, r.len)) == q + DataFrom(runs, i + 1) + Repeat(r.ch, r.len);
    }
  }
}
