/** The symbol stream between move-to-front and Huffman coding: what generateMTFValues writes, what
    the decoding loop makes of any stream, and that the second undoes the first. */
module MtfSymbols {
  import opened MoveToFront

  const RUNA := 0
  const RUNB := 1

  datatype Option<T> = None | Some(value: T)

  /* ---------- runs of front symbols, in bijective base two ---------- */

  /** The digits written for a run of n: zPend after its first decrement is n - 1. */
  ghost function RunCode(n: nat): (d: seq<int>)
    ensures |d| <= n && forall k :: 0 <= k < |d| ==> d[k] == RUNA || d[k] == RUNB
    ensures n > 0 ==> |d| > 0
  {
    if n == 0 then [] else [(n - 1) % 2] + (if n - 1 < 2 then [] else RunCode((n - 1 - 2) / 2 + 1))
  }

  /** What the decoder accumulates: digit k stands for (digit + 1) * 2^k. */
  ghost function RunValue(d: seq<int>): (n: int)
  {
    if d == [] then 0 else d[0] + 1 + 2 * RunValue(d[1..])
  }

  lemma {:induction false} RunValueOfCode(n: nat)
    ensures RunValue(RunCode(n)) == n
    decreases n
  {
    if n > 0 {
      var rest := if n - 1 < 2 then [] else RunCode((n - 1 - 2) / 2 + 1);
      assert RunCode(n)[1..] == rest;
      if n - 1 >= 2 {
        RunValueOfCode((n - 1 - 2) / 2 + 1);
      }
    }
  }

  ghost predicate IsRun(s: int) { s == RUNA || s == RUNB }

  /** How many run digits the stream starts with. */
  ghost function RunDigits(s: seq<int>): (k: nat)
    ensures k <= |s| && (forall i :: 0 <= i < k ==> IsRun(s[i])) && (k < |s| ==> !IsRun(s[k]))
  {
    if s == [] || !IsRun(s[0]) then 0 else 1 + RunDigits(s[1..])
  }

  lemma {:induction false} RunDigitsOf(d: seq<int>, s: seq<int>)
    requires (forall i :: 0 <= i < |d| ==> IsRun(d[i])) && |s| > 0 && !IsRun(s[0])
    ensures RunDigits(d + s) == |d| && (d + s)[..|d|] == d && (d + s)[|d|..] == s
    decreases |d|
  {
    if d == [] {
      assert d + s == s;
    } else {
      assert (d + s)[1..] == d[1..] + s;
      RunDigitsOf(d[1..], s);
    }
  }

  /* ---------- encoding ---------- */

  ghost predicate NoRepeats(y: seq<int>) {
    forall i, j :: 0 <= i < j < |y| ==> y[i] != y[j]
  }

  /** Where x stands in the list. */
  ghost function IndexOf(y: seq<int>, x: int): (j: nat)
    requires x in y
    ensures j < |y| && y[j] == x && forall k :: 0 <= k < j ==> y[k] != x
  {
    if y[0] == x then 0 else 1 + IndexOf(y[1..], x)
  }

  lemma ToFrontMembers(y: seq<int>, j: nat)
    requires j < |y|
    ensures forall x :: x in y <==> x in ToFront(y, j)
    ensures NoRepeats(y) ==> NoRepeats(ToFront(y, j))
  {
    var z := ToFront(y, j);
    forall x | x in y ensures x in z {
      var k :| 0 <= k < |y| && y[k] == x;
      if k == j { assert z[0] == x; } else if k < j { assert z[k + 1] == x; } else { assert z[k] == x; }
    }
    forall x | x in z ensures x in y {
      var k :| 0 <= k < |z| && z[k] == x;
      if k == 0 { assert y[j] == x; } else if k <= j { assert y[k - 1] == x; } else { assert y[k] == x; }
    }
  }

  /** The symbols for the bytes c (numbered among those in use), with the list y and a run of z
      front symbols pending. */
  ghost function Symbols(y: seq<int>, c: seq<int>, z: nat, eob: int): (s: seq<int>)
    requires forall i :: 0 <= i < |c| ==> c[i] in y
    decreases |c|
  {
    if c == [] then RunCode(z) + [eob]
    else
      var j := IndexOf(y, c[0]);
      if j == 0 then Symbols(y, c[1..], z + 1, eob)
      else
        ToFrontMembers(y, j);
        RunCode(z) + [j + 1] + Symbols(ToFront(y, j), c[1..], 0, eob)
  }

  /* ---------- decoding ---------- */

  ghost function Repeat(x: int, n: nat): (s: seq<int>)
    ensures |s| == n && forall i :: 0 <= i < n ==> s[i] == x
  {
    seq(n, _ => x)
  }

  /** What a symbol stream stands for, from the list y: runs of the front entry, entries moved to
      the front, up to the end symbol. None if the stream has no end symbol or leaves the list. */
  ghost function Undo(y: seq<int>, s: seq<int>, eob: int): (r: Option<seq<int>>)
    requires eob > RUNB
    decreases |s|
  {
    if s == [] then None
    else if s[0] == eob then Some([])
    else if IsRun(s[0]) then
      var k := RunDigits(s);
      match Undo(y, s[k..], eob)
      case None => None
      case Some(rest) => if |y| == 0 || RunValue(s[..k]) < 0 then None else Some(Repeat(y[0], RunValue(s[..k])) + rest)
    else if s[0] < 0 || s[0] - 1 >= |y| then None
    else
      match Undo(ToFront(y, s[0] - 1), s[1..], eob)
      case None => None
      case Some(rest) => Some([y[s[0] - 1]] + rest)
  }

  /** A symbol for an entry away from the front, before a stream that decodes. */
  lemma UndoLiteral(y: seq<int>, j: nat, tail: seq<int>, c: seq<int>, eob: int)
    requires 1 <= j < |y| && eob > |y| && Undo(ToFront(y, j), tail, eob) == Some(c)
    ensures Undo(y, [j + 1] + tail, eob) == Some([y[j]] + c)
  {
    hide ToFront;
    hide RunDigits;
    hide RunValue;
    assert ([j + 1] + tail)[1..] == tail;
  }

  /** A run in front of anything that is not a run digit. */
  lemma UndoRun(y: seq<int>, z: nat, s: seq<int>, r: seq<int>, eob: int)
    requires |y| > 0 && eob > RUNB && |s| > 0 && !IsRun(s[0]) && Undo(y, s, eob) == Some(r)
    ensures Undo(y, RunCode(z) + s, eob) == Some(Repeat(y[0], z) + r)
  {
    var d := RunCode(z);
    if z == 0 {
      assert d + s == s;
      assert Repeat(y[0], 0) + r == r;
    } else {
      RunDigitsOf(d, s);
      RunValueOfCode(z);
      assert (d + s)[0] == d[0];
    }
  }

  /** Undoing the symbols of c gives back c, with the pending run in front. */
  lemma {:induction false} UndoSymbols(y: seq<int>, c: seq<int>, z: nat, eob: int)
    requires |y| > 0 && eob > |y| && (forall i :: 0 <= i < |c| ==> c[i] in y)
    ensures Undo(y, Symbols(y, c, z, eob), eob) == Some(Repeat(y[0], z) + c)
    decreases |c|
  {
    hide Undo;
    hide RunCode;
    if c == [] {
      UndoEnd(y, eob);
      UndoRun(y, z, [eob], [], eob);
    } else {
      var j := IndexOf(y, c[0]);
      if j == 0 {
        UndoSymbols(y, c[1..], z + 1, eob);
        assert Repeat(y[0], z + 1) + c[1..] == Repeat(y[0], z) + c;
      } else {
        ToFrontMembers(y, j);
        var tail := Symbols(ToFront(y, j), c[1..], 0, eob);
        UndoSymbols(ToFront(y, j), c[1..], 0, eob);
        assert Repeat(c[0], 0) + c[1..] == c[1..];
        UndoLiteral(y, j, tail, c[1..], eob);
        assert [c[0]] + c[1..] == c;
        UndoRun(y, z, [j + 1] + tail, c, eob);
        assert RunCode(z) + [j + 1] + tail == RunCode(z) + ([j + 1] + tail);
      }
    }
  }

  lemma UndoEnd(y: seq<int>, eob: int)
    requires eob > RUNB
    ensures Undo(y, [eob], eob) == Some([])
  {
  }
}
