/** blocksort.c, BZ2_blockSort: which of the two sorters is used, and where the block itself ends up
    among its rotations. Either way the result is a rotation order of the block. */
module BlockSort {
  import opened Rotations
  import opened Counting
  import MainSort
  import FallbackSort

  /** Where rotation 0 stands in a rotation order. */
  method FindOrigin(ptr: array<int>, nblock: nat) returns (origPtr: int)
    requires 0 < nblock <= ptr.Length && IsPermutation(ptr[..nblock], nblock)
    ensures 0 <= origPtr < nblock && ptr[origPtr] == 0
  {
    origPtr := -1;
    var i := 0;
    while i < nblock
      invariant 0 <= i <= nblock && origPtr == -1 && forall k :: 0 <= k < i ==> ptr[k] != 0
    {
      if ptr[i] == 0 { origPtr := i; break; }
      i := i + 1;
    }
    ghost var k := PermutationHits(ptr[..nblock], nblock, 0);
    assert ptr[k] == 0;
    assert origPtr != -1;  // assert 1003 of the source
  }

  lemma SortedPermutation(b: seq<int>, p: seq<int>)
    requires SortedRotations(b, p)
    ensures IsPermutation(p, |b|)
  {
  }

  /** BZ2_blockSort. The main sort is tried on blocks of 10000 bytes or more and given up for the
      fallback sort when its budget, set by the work factor, runs out. */
  method Sort(ptr: array<int>, block: array<int>, quadrant: array<int>, ftab: array<int>, bhtab: array<bv32>,
      nblock: nat, workFactor: int)
    returns (origPtr: int)
    requires ptr != block && ptr != quadrant && ptr != ftab && block != quadrant && ftab != block && ftab != quadrant
    requires bhtab as object != block && bhtab as object != ptr
    requires 0 < nblock <= 900_000 && ptr.Length == nblock && block.Length == quadrant.Length == nblock + 34
    requires ftab.Length == 65537 && bhtab.Length >= 3 + nblock / 32 && Keys(block[..nblock], 256)
    modifies ptr, block, quadrant, ftab, bhtab
    ensures block[..nblock] == old(block[..nblock]) && SortedRotations(block[..nblock], ptr[..])
    ensures 0 <= origPtr < nblock && ptr[origPtr] == 0
  {
    assert MainSort.MAX_BLOCK == 900_000;
    hide *;
    ghost var b := block[..nblock];
    if nblock < 10000 {
      FallbackSort.Sort(ptr, block, bhtab, nblock);
    } else {
      var wfact := workFactor;
      if wfact < 1 { wfact := 1; }
      if wfact > 100 { wfact := 100; }
      var budget := nblock * ((wfact - 1) / 3);
      budget := MainSort.Sort(ptr, block, quadrant, ftab, nblock, budget);
      if budget < 0 {
        FallbackSort.Sort(ptr, block, bhtab, nblock);
      }
    }
    assert ptr[..nblock] == ptr[..];
    SortedPermutation(b, ptr[..]);
    origPtr := FindOrigin(ptr, nblock);
  }
}
