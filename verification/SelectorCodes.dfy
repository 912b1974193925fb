/** The move-to-front coding of the selectors: compress.c and decompress.c each keep a list pos of
    the coding tables. */
module SelectorCodes {
  import opened MoveToFront
  import opened MtfSymbols

  ghost predicate AllIn(sel: seq<int>, pos: seq<int>) {
    forall i {:trigger sel[i]} :: 0 <= i < |sel| ==> sel[i] in pos
  }

  /** The numbers written for the selectors sel, from the list pos. */
  ghost function Codes(pos: seq<int>, sel: seq<int>): (c: seq<nat>)
    requires AllIn(sel, pos)
    ensures |c| == |sel| && forall i :: 0 <= i < |c| ==> c[i] < |pos|
    decreases |sel|
  {
    if sel == [] then []
    else
      ToFrontMembers(pos, IndexOf(pos, sel[0]));
      [IndexOf(pos, sel[0])] + Codes(ToFront(pos, IndexOf(pos, sel[0])), sel[1..])
  }

  /** The selectors those numbers stand for. */
  ghost function Undone(pos: seq<int>, codes: seq<nat>): (sel: seq<int>)
    requires forall i :: 0 <= i < |codes| ==> codes[i] < |pos|
    ensures |sel| == |codes|
    decreases |codes|
  {
    if codes == [] then [] else [pos[codes[0]]] + Undone(ToFront(pos, codes[0]), codes[1..])
  }

  lemma {:induction false} UndoneCodes(pos: seq<int>, sel: seq<int>)
    requires AllIn(sel, pos)
    ensures Undone(pos, Codes(pos, sel)) == sel
    decreases |sel|
  {
    if sel != [] {
      var j := IndexOf(pos, sel[0]);
      ToFrontMembers(pos, j);
      UndoneCodes(ToFront(pos, j), sel[1..]);
      assert Codes(pos, sel)[1..] == Codes(ToFront(pos, j), sel[1..]);
    }
  }

  /** The list of n tables in order. */
  ghost function Tables(n: nat): (pos: seq<int>)
    ensures |pos| == n && forall i :: 0 <= i < n ==> pos[i] == i
  {
    seq(n, i => i)
  }

  lemma InTables(sel: seq<int>, n: nat)
    requires forall i :: 0 <= i < |sel| ==> 0 <= sel[i] < n
    ensures AllIn(sel, Tables(n))
  {
    forall i {:trigger sel[i]} | 0 <= i < |sel| ensures sel[i] in Tables(n) { assert Tables(n)[sel[i]] == sel[i]; }
  }

  /* ---------- the compressor ---------- */

  /** The search loop: the entry wanted is brought to the front. */
  method BringToFront(pos: array<int>, ll: int) returns (j: nat)
    requires ll in pos[..]
    modifies pos
    ensures j == IndexOf(old(pos[..]), ll) && pos[..] == ToFront(old(pos[..]), j)
  {
    ghost var y := pos[..];
    ghost var at := IndexOf(y, ll);
    j := 0;
    var tmp := pos[0];
    while ll != tmp
      invariant 0 <= j <= at && tmp == y[j] && forall k :: 1 <= k <= j ==> pos[k] == y[k - 1]
      invariant forall k :: j < k < |y| ==> pos[k] == y[k]
      decreases at - j
    {
      j := j + 1;
      var tmp2 := tmp;
      tmp := pos[j];
      pos[j] := tmp2;
    }
    pos[0] := tmp;
    ToFrontUnique(y, at, pos[..]);
  }

  /** Encoding is under way: the codes c so far and those of the selectors from i on are all codes. */
  ghost predicate Coding(pos: seq<int>, sel: seq<int>, i: int, c: seq<nat>, n: nat) {
    (forall i :: 0 <= i < |sel| ==> 0 <= sel[i] < n) && AllIn(sel, Tables(n)) && 0 <= i <= |sel| && |c| == i &&
    |pos| == n &&
    AllIn(sel[i..], pos) && c + Codes(pos, sel[i..]) == Codes(Tables(n), sel)
  }

  lemma CodingStart(sel: seq<int>, n: nat)
    requires forall i :: 0 <= i < |sel| ==> 0 <= sel[i] < n
    ensures Coding(Tables(n), sel, 0, [], n)
  {
    InTables(sel, n);
    assert sel[0..] == sel;
  }

  lemma CodingStep(pos: seq<int>, sel: seq<int>, i: int, c: seq<nat>, n: nat)
    requires Coding(pos, sel, i, c, n) && i < |sel|
    ensures sel[i] in pos && Coding(ToFront(pos, IndexOf(pos, sel[i])), sel, i + 1, c + [IndexOf(pos, sel[i])], n)
  {
    assert sel[i..][0] == sel[i];
    var j := IndexOf(pos, sel[i]);
    ToFrontMembers(pos, j);
    assert sel[i..][1..] == sel[i + 1..];
    forall k {:trigger sel[i + 1..][k]} | 0 <= k < |sel[i + 1..]| ensures sel[i + 1..][k] in ToFront(pos, j) {
      assert sel[i + 1..][k] == sel[i..][k + 1];
    }
    assert c + ([j] + Codes(ToFront(pos, j), sel[i + 1..])) == c + [j] + Codes(ToFront(pos, j), sel[i + 1..]);
  }

  lemma CodingDone(pos: seq<int>, sel: seq<int>, c: seq<nat>, n: nat)
    requires Coding(pos, sel, |sel|, c, n)
    ensures c == Codes(Tables(n), sel)
  {
    assert sel[|sel|..] == [];
  }

  /** Compute the numbers of the selectors. */
  method EncodeSelectors(selector: array<int>, nSelectors: nat, nGroups: nat) returns (selectorMtf: array<int>)
    requires nSelectors <= selector.Length && forall i :: 0 <= i < nSelectors ==> 0 <= selector[i] < nGroups
    ensures fresh(selectorMtf) && selectorMtf.Length == nSelectors && AllIn(selector[..nSelectors], Tables(nGroups))
    ensures selectorMtf[..] == Codes(Tables(nGroups), selector[..nSelectors])
  {
    ghost var sel := selector[..nSelectors];
    CodingStart(sel, nGroups);
    InTables(sel, nGroups);
    var pos := new int[nGroups](i => i);
    assert pos[..] == Tables(nGroups);
    selectorMtf := new int[nSelectors];
    hide Coding;
    hide Codes;
    var i := 0;
    ghost var c: seq<nat> := [];
    while i < nSelectors
      invariant 0 <= i <= nSelectors && selectorMtf[..i] == c && selector[..nSelectors] == sel
      invariant Coding(pos[..], sel, i, c, nGroups)
    {
      CodingStep(pos[..], sel, i, c, nGroups);
      var j := BringToFront(pos, selector[i]);
      selectorMtf[i] := j;
      c := c + [j];
      assert selectorMtf[..i + 1] == c;
      i := i + 1;
    }
    CodingDone(pos[..], sel, c, nGroups);
    assert selectorMtf[..] == selectorMtf[..nSelectors];
  }

  /* ---------- the decompressor ---------- */

  /** The entry at v moves to the front, the others down. */
  method TakeToFront(pos: array<int>, v0: nat) returns (tmp: int)
    requires v0 < pos.Length
    modifies pos
    ensures tmp == old(pos[v0]) && pos[..] == ToFront(old(pos[..]), v0)
  {
    ghost var y := pos[..];
    var v := v0;
    tmp := pos[v];
    while v > 0
      invariant 0 <= v <= v0 && forall k :: v < k <= v0 ==> pos[k] == y[k - 1]
      invariant forall k :: 0 <= k < |y| && (k <= v || k > v0) ==> pos[k] == y[k]
    {
      pos[v] := pos[v - 1];
      v := v - 1;
    }
    pos[0] := tmp;
    ToFrontUnique(y, v0, pos[..]);
  }

  /** The selectors so far and those of the codes from i on are all selectors. */
  ghost predicate Undoing(pos: seq<int>, codes: seq<nat>, i: int, out: seq<int>, n: nat) {
    (forall k :: 0 <= k < |codes| ==> codes[k] < n) && 0 <= i <= |codes| && |out| == i && |pos| == n &&
    (forall k :: 0 <= k < n ==> 0 <= pos[k] < n) && (forall k :: 0 <= k < i ==> 0 <= out[k] < n) &&
    out + Undone(pos, codes[i..]) == Undone(Tables(n), codes)
  }

  lemma UndoingStart(codes: seq<nat>, n: nat)
    requires forall k :: 0 <= k < |codes| ==> codes[k] < n
    ensures Undoing(Tables(n), codes, 0, [], n)
  {
    assert codes[0..] == codes;
  }

  lemma UndoingStep(pos: seq<int>, codes: seq<nat>, i: int, out: seq<int>, n: nat)
    requires Undoing(pos, codes, i, out, n) && i < |codes|
    ensures codes[i] < |pos| && Undoing(ToFront(pos, codes[i]), codes, i + 1, out + [pos[codes[i]]], n)
  {
    assert codes[i..][1..] == codes[i + 1..] && codes[i..][0] == codes[i];
    var rest := Undone(ToFront(pos, codes[i]), codes[i + 1..]);
    assert out + ([pos[codes[i]]] + rest) == out + [pos[codes[i]]] + rest;
  }

  lemma UndoingDone(pos: seq<int>, codes: seq<nat>, out: seq<int>, n: nat)
    requires Undoing(pos, codes, |codes|, out, n)
    ensures out == Undone(Tables(n), codes) && forall k :: 0 <= k < |codes| ==> 0 <= out[k] < n
  {
    assert codes[|codes|..] == [];
  }

  /** Undo the move-to-front numbers of the selectors. */
  method DecodeSelectors(selectorMtf: array<int>, nSelectors: nat, nGroups: nat) returns (selector: array<int>)
    requires nSelectors <= selectorMtf.Length && forall i :: 0 <= i < nSelectors ==> 0 <= selectorMtf[i] < nGroups
    ensures fresh(selector) && selector.Length == nSelectors && forall i ::
      0 <= i < nSelectors ==> 0 <= selector[i] < nGroups
    ensures selector[..] == Undone(Tables(nGroups), selectorMtf[..nSelectors])
  {
    ghost var codes: seq<nat> := selectorMtf[..nSelectors];
    UndoingStart(codes, nGroups);
    var pos := new int[nGroups](v => v);
    assert pos[..] == Tables(nGroups);
    selector := new int[nSelectors];
    hide *;
    var i := 0;
    ghost var out: seq<int> := [];
    while i < nSelectors
      invariant 0 <= i <= nSelectors && selectorMtf[..nSelectors] == codes && selector[..i] == out
      invariant Undoing(pos[..], codes, i, out, nGroups)
    {
      UndoingStep(pos[..], codes, i, out, nGroups);
      assert codes[i] == selectorMtf[i];
      var tmp := TakeToFront(pos, selectorMtf[i]);
      selector[i] := tmp;
      out := out + [tmp];
      assert selector[..i + 1] == out;
      i := i + 1;
    }
    UndoingDone(pos[..], codes, out, nGroups);
    assert selector[..] == selector[..nSelectors];
  }
}
