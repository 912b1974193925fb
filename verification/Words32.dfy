/** 32-bit words as vectors over the two-element field. The operations have names so that proofs
    about registers built from them need not look at single bits. */
module Words32 {
  function Xor(a: bv32, b: bv32): bv32 { a ^ b }

  lemma Commutes(a: bv32, b: bv32)
    ensures Xor(a, b) == Xor(b, a)
  {
  }

  lemma Associates(a: bv32, b: bv32, c: bv32)
    ensures Xor(Xor(a, b), c) == Xor(a, Xor(b, c))
  {
  }

  lemma Zero(a: bv32)
    ensures Xor(a, 0) == a && Xor(0, a) == a
  {
  }

  lemma Cancels(a: bv32)
    ensures Xor(a, a) == 0
  {
  }

  /** Sums of sums, regrouped. */
  lemma Regroup(a: bv32, b: bv32, c: bv32, d: bv32)
    ensures Xor(Xor(a, b), Xor(c, d)) == Xor(Xor(a, c), Xor(b, d))
  {
    hide Xor;
    Associates(a, b, Xor(c, d));
    Associates(b, c, d);
    Commutes(b, c);
    Associates(c, b, d);
    Associates(a, c, Xor(b, d));
  }
}
