/** Sequences of bytes. */
module ByteSeq {
  ghost predicate AreBytes(s: seq<int>) {
    forall i :: 0 <= i < |s| ==> 0 <= s[i] < 256
  }

  /** Memory as the allocator gives it: bytes, but whatever bytes. */
  method AllocateBytes(n: nat) returns (a: array<int>)
    ensures fresh(a) && a.Length == n && AreBytes(a[..])
  {
    a := new int[n](_ => 255);
  }

  /** The bytes that occur in b are marked, and no others. */
  ghost predicate Marks(inUse: seq<bool>, b: seq<int>) {
    |inUse| == 256 && forall v :: 0 <= v < 256 ==> (inUse[v] <==> v in b)
  }
}
