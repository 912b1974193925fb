/** inftrees.c, inflate_table: code lengths are turned into a root table and second tables. */
module InflateTable {
  import opened Counting
  import opened Bits
  import opened CanonicalCode
  import opened CodeOrder
  import opened ReversedBits
  import opened InflateCodes
  import opened InflateSteps

  const ENOUGH_LENS := 852
  const ENOUGH_DISTS := 592

  /* ---------- entering a code keeps the others ---------- */

  /** T' is T with entry e in the slots of one table whose numbers end in the n bits h. */
  ghost predicate Put(T: seq<Entry>, T': seq<Entry>, base: nat, size: nat, n: nat, h: nat, e: Entry) {
    |T'| == |T| && base + size <= |T| && Filled(T', base, size, n, h, e) &&
    forall z :: 0 <= z < |T| && !(base <= z < base + size && Low(z - base, n) == h) ==> T'[z] == T[z]
  }

  /** Codes that do not begin with one another are entered in different slots. */
  lemma PutKeeps(T: seq<Entry>, T': seq<Entry>, base: nat, size: nat, n: nat, h: nat, e: Entry, n': nat, h': nat,
      e': Entry)
    requires Put(T, T', base, size, n, h, e) && Filled(T, base, size, n', h', e') && n' <= n && Low(h, n') != h'
    ensures Filled(T', base, size, n', h', e')
  {
    hide Pow2;
    forall z | base <= z < base + size && Low(z - base, n') == h' ensures T'[z] == e' {
      LowBits(z - base, n', n);
    }
  }

  /** Other tables are not touched. */
  lemma PutElsewhere(T: seq<Entry>, T': seq<Entry>, base: nat, size: nat, n: nat, h: nat, e: Entry, base': nat,
      size': nat, n': nat, h': nat, e': Entry)
    requires Put(T, T', base, size, n, h, e) && Filled(T, base', size', n', h', e') &&
      (base' + size' <= base || base + size <= base')
    ensures Filled(T', base', size', n', h', e')
  {
    hide Pow2;
  }

  /** Two numbers with the same low root bits, and the same n' - root bits after them. */
  lemma SameLow(h: nat, h': nat, n': nat, root: nat)
    requires root <= n' && h' < Pow2(n') && Low(h, root) == Low(h', root) &&
      Low(High(h, root), n' - root) == High(h', root)
    ensures Low(h, n') == h'
  {
    hide Pow2;
    LowBits(h, root, n');
    DivMod(h % Pow2(n'), Pow2(root));
    DivMod(h', Pow2(root));
  }

  /** The link written for a new table is in a slot of no shorter code. */
  lemma LinkKeeps(T: seq<Entry>, x: nat, l: Entry, size: nat, h: nat, n': nat, h': nat, e': Entry, root: nat)
    requires x < |T| && Filled(T, 0, size, n', h', e') && x == Low(h, root) && n' <= root && Low(h, n') != h'
    ensures Filled(T[x := l], 0, size, n', h', e')
  {
    hide Pow2;
    LowBits(h, n', root);
  }

  /* ---------- the state of the loop ---------- */

  /** Code j is entered, and if by a link other than the one at low, that refers to a table before next. */
  ghost predicate One(T: seq<Entry>, typ: CodeType, lens: seq<int>, root: nat, used: nat, low: int, next: nat, j: nat)
    requires AllLens(lens, typ) && j < Total(lens)
  {
    Found(T, typ, lens, root, used, j) && (Size(lens, j) > root ==> Before(T, root, Huff(lens, j), low, next))
  }

  lemma OneIs(T: seq<Entry>, typ: CodeType, lens: seq<int>, root: nat, used: nat, low: int, next: nat, j: nat)
    requires AllLens(lens, typ) && j < Total(lens)
    ensures One(T, typ, lens, root, used, low, next, j) <==>
      Found(T, typ, lens, root, used, j) && (Size(lens, j) > root ==> Before(T, root, Huff(lens, j), low, next))
  {
    hide Found;
    hide Before;
    hide Size;
    hide Huff;
    hide AllLens;
    hide Total;
  }

  /** Codes below k are entered. */
  ghost predicate Entered(T: seq<Entry>, typ: CodeType, lens: seq<int>, root: nat, used: nat, k: nat, low: int,
      next: nat)
    requires AllLens(lens, typ) && k <= Total(lens)
  {
    forall j :: 0 <= j < k ==> One(T, typ, lens, root, used, low, next, j)
  }

  ghost predicate Before(T: seq<Entry>, root: nat, h: nat, low: int, next: nat) {
    var x := Low(h, root);
    x < |T| && 0 <= T[x].op && (x == low || T[x].val + Pow2(T[x].op) <= next)
  }

  /** The table being filled: the root table, or the second table of root index low. */
  ghost predicate Current(T: seq<Entry>, lens: seq<int>, root: nat, used: nat, long: bool, low: int, next: nat,
      curr: nat, drop: nat) {
    1 <= root <= MAXBITS && used <= |T| &&
    if long then
      drop == root && 0 <= low < Pow2(root) <= next && Link(T, root, used, low) && T[low] == Entry(curr, root, next) &&
                 next + Pow2(curr) == used && Roomy(lens, root, low, curr)
    else drop == 0 && next == 0 && curr == root && used == Pow2(root) && low == -1
  }

  /** Code k can be entered. */
  ghost predicate Ready(T: seq<Entry>, typ: CodeType, lens: seq<int>, root: nat, used: nat, k: nat, low: int, next: nat,
      curr: nat, drop: nat) {
    AllLens(lens, typ) && k < Total(lens) && Fit(lens) && Entered(T, typ, lens, root, used, k, low, next) &&
    Current(T, lens, root, used, Size(lens, k) > root, low, next, curr, drop) &&
    (Size(lens, k) > root ==> low == Low(Huff(lens, k), root))
  }

  /** It has been. */
  ghost predicate Over(T: seq<Entry>, typ: CodeType, lens: seq<int>, root: nat, used: nat, k: nat, low: int, next: nat,
      curr: nat, drop: nat) {
    AllLens(lens, typ) && k < Total(lens) && Fit(lens) && Entered(T, typ, lens, root, used, k + 1, low, next) &&
    Current(T, lens, root, used, Size(lens, k) > root, low, next, curr, drop) &&
    (Size(lens, k) > root ==> low == Low(Huff(lens, k), root))
  }

  lemma Shifted(h: nat, root: nat, n: nat)
    requires root <= n && h < Pow2(n)
    ensures High(h, root) < Pow2(n - root)
  {
    Pow2Sum(root, n - root);
    QuotientLess(h, Pow2(n - root), Pow2(root));
  }

  /** Entering a code of at most root bits. */
  lemma PutShort(T: seq<Entry>, T': seq<Entry>, typ: CodeType, lens: seq<int>, root: nat, used: nat, k: nat)
    requires Ready(T, typ, lens, root, used, k, -1, 0, root, 0) && Size(lens, k) <= root
    requires Put(T, T', 0, Pow2(root), Size(lens, k), Huff(lens, k), Leaf(lens, typ, k, Size(lens, k)))
    ensures Over(T', typ, lens, root, used, k, -1, 0, root, 0)
  {
    hide Pow2;
    hide Size;
    hide Huff;
    hide Leaf;
    hide Fit;
    hide AllLens;
    hide Total;
    hide Filled;
    forall j | 0 <= j < k + 1 ensures One(T', typ, lens, root, used, -1, 0, j) {
      OneIs(T', typ, lens, root, used, -1, 0, j);
      if j < k {
        PrefixFree(lens, j, k);
        EnteredAt(T, typ, lens, root, used, k, -1, 0, j);
        PutKeeps(T, T', 0, Pow2(root), Size(lens, k), Huff(lens, k), Leaf(lens, typ, k, Size(lens, k)),
                 Size(lens, j), Huff(lens, j), Leaf(lens, typ, j, Size(lens, j)));
      }
    }
  }

  /** A link and its table, when both stay as they are. */
  lemma LinkedStays(T: seq<Entry>, T': seq<Entry>, root: nat, used: nat, used': nat, n: nat, h: nat, e: Entry, x: nat)
    requires Linked(T, root, used, n, h, e) && |T'| == |T| && used <= used' <= |T| && x == Low(h, root) && x < |T| &&
      T'[x] == T[x]
    requires forall z :: T[x].val <= z < T[x].val + Pow2(T[x].op) && z < |T| ==> T'[z] == T[z]
    ensures Linked(T', root, used', n, h, e)
  {
    hide Pow2;
  }

  /** A later code of the same table leaves the slots of an earlier one. */
  lemma LinkedKeeps(T: seq<Entry>, T': seq<Entry>, root: nat, used: nat, next: nat, curr: nat, n: nat, h: nat, e: Entry,
      n': nat, h': nat, e': Entry, x: nat)
    requires Linked(T, root, used, n', h', e') && x == Low(h', root) == Low(h, root) && x < |T| &&
      T[x] == Entry(curr, root, next)
    requires n' <= n && root < n && Low(h, n') != h' && h' < Pow2(n') && Pow2(root) <= next
    requires Put(T, T', next, Pow2(curr), n - root, High(h, root), e)
    ensures Linked(T', root, used, n', h', e')
  {
    hide Pow2;
    if Low(High(h, root), n' - root) == High(h', root) { SameLow(h, h', n', root); }
    PutKeeps(T, T', next, Pow2(curr), n - root, High(h, root), e, n' - root, High(h', root), e');
    ModOf(h, root);
  }

  lemma FoundSplit(T: seq<Entry>, typ: CodeType, lens: seq<int>, root: nat, used: nat, k: nat)
    requires k < Total(lens) && AllLens(lens, typ)
    ensures Size(lens, k) <= root ==>
      (Found(T, typ, lens, root, used, k) <==>
      Filled(T, 0, Pow2(root), Size(lens, k), Huff(lens, k), Leaf(lens, typ, k, Size(lens, k))))
    ensures Size(lens, k) > root ==>
      (Found(T, typ, lens, root, used, k) <==>
      Linked(T, root, used, Size(lens, k), Huff(lens, k), Leaf(lens, typ, k, Size(lens, k) - root)))
  {
    hide Pow2;
    hide Size;
    hide Huff;
    hide Leaf;
    hide Filled;
    hide Linked;
  }

  /** Entering a longer code. */
  lemma PutLong(T: seq<Entry>, T': seq<Entry>, typ: CodeType, lens: seq<int>, root: nat, used: nat, k: nat, low: nat,
      next: nat, curr: nat)
    requires Ready(T, typ, lens, root, used, k, low, next, curr, root) && Size(lens, k) > root
    requires Put(T, T', next, Pow2(curr), Size(lens, k) - root, High(Huff(lens, k), root),
      Leaf(lens, typ, k, Size(lens, k) - root))
    ensures Over(T', typ, lens, root, used, k, low, next, curr, root)
  {
    hide *;
    ReadyParts(T, typ, lens, root, used, k, low, next, curr, root);
    LongParts(T, lens, root, used, low, next, curr, root);
    var n, h := Size(lens, k), Huff(lens, k);
    var e := Leaf(lens, typ, k, n - root);
    PutOutside(T, T', next, Pow2(curr), n - root, High(h, root), e);
    forall j | 0 <= j < k + 1 ensures One(T', typ, lens, root, used, low, next, j) {
      OneIs(T', typ, lens, root, used, low, next, j);
      FoundSplit(T', typ, lens, root, used, j);
      if j < k {
        EnteredAt(T, typ, lens, root, used, k, low, next, j);
        FoundSplit(T, typ, lens, root, used, j);
        PrefixFree(lens, j, k);
        if Size(lens, j) <= root {
          PutElsewhere(T, T', next, Pow2(curr), n - root, High(h, root), e, 0, Pow2(root), Size(lens, j), Huff(lens, j),
            Leaf(lens, typ, j, Size(lens, j)));
        } else {
          KeepLong(T, T', typ, lens, root, used, k, low, next, curr, j);
        }
      } else {
        NowLinked(T, T', root, used, low, next, curr, n, h, e, lens, k);
        BeforeLow(T', root, h, low, next, curr);
      }
    }
    EnteredIntro(T', typ, lens, root, used, k + 1, low, next);
    CurrentKept(T, T', lens, root, used, low, next, curr, root);
    OverIntro(T', typ, lens, root, used, k, low, next, curr, root);
  }

  lemma ReadyParts(T: seq<Entry>, typ: CodeType, lens: seq<int>, root: nat, used: nat, k: nat, low: int, next: nat,
      curr: nat, drop: nat)
    requires Ready(T, typ, lens, root, used, k, low, next, curr, drop)
    ensures AllLens(lens, typ) && k < Total(lens) && Fit(lens) && Entered(T, typ, lens, root, used, k, low, next)
    ensures Current(T, lens, root, used, Size(lens, k) > root, low, next, curr, drop)
    ensures Size(lens, k) > root ==> low == Low(Huff(lens, k), root)
  {
    hide Pow2;
    hide Size;
    hide Huff;
    hide AllLens;
    hide Fit;
    hide Entered;
    hide Current;
    hide Total;
  }

  lemma OverIntro(T: seq<Entry>, typ: CodeType, lens: seq<int>, root: nat, used: nat, k: nat, low: int, next: nat,
      curr: nat, drop: nat)
    requires AllLens(lens, typ) && k < Total(lens) && Fit(lens) && Entered(T, typ, lens, root, used, k + 1, low, next)
    requires Current(T, lens, root, used, Size(lens, k) > root, low, next, curr, drop)
    requires Size(lens, k) > root ==> low == Low(Huff(lens, k), root)
    ensures Over(T, typ, lens, root, used, k, low, next, curr, drop)
  {
    hide Pow2;
    hide Size;
    hide Huff;
    hide AllLens;
    hide Fit;
    hide Entered;
    hide Current;
    hide Total;
  }

  lemma EnteredAt(T: seq<Entry>, typ: CodeType, lens: seq<int>, root: nat, used: nat, k: nat, low: int, next: nat,
      j: nat)
    requires AllLens(lens, typ) && k <= Total(lens) && Entered(T, typ, lens, root, used, k, low, next) && j < k
    ensures Found(T, typ, lens, root, used, j) && (Size(lens, j) > root ==> Before(T, root, Huff(lens, j), low, next))
  {
    hide *;
    EnteredOne(T, typ, lens, root, used, k, low, next, j);
    OneIs(T, typ, lens, root, used, low, next, j);
  }

  lemma EnteredOne(T: seq<Entry>, typ: CodeType, lens: seq<int>, root: nat, used: nat, k: nat, low: int, next: nat,
      j: nat)
    requires AllLens(lens, typ) && k <= Total(lens) && Entered(T, typ, lens, root, used, k, low, next) && j < k
    ensures One(T, typ, lens, root, used, low, next, j)
  {
    hide One;
    hide AllLens;
    hide Total;
  }

  lemma EnteredIntro(T: seq<Entry>, typ: CodeType, lens: seq<int>, root: nat, used: nat, k: nat, low: int, next: nat)
    requires AllLens(lens, typ) && k <= Total(lens) && forall j ::
      0 <= j < k ==> One(T, typ, lens, root, used, low, next, j)
    ensures Entered(T, typ, lens, root, used, k, low, next)
  {
    hide One;
    hide AllLens;
    hide Total;
  }

  lemma LongParts(T: seq<Entry>, lens: seq<int>, root: nat, used: nat, low: int, next: nat, curr: nat, drop: nat)
    requires Current(T, lens, root, used, true, low, next, curr, drop)
    ensures 1 <= root <= MAXBITS && used <= |T| && drop == root && 0 <= low < Pow2(root) <= next && low < |T| &&
      Link(T, root, used, low)
    ensures T[low] == Entry(curr, root, next) && next + Pow2(curr) == used && Roomy(lens, root, low, curr) &&
      1 <= curr <= 15
  {
    hide Pow2;
    hide Roomy;
  }

  lemma PutOutside(T: seq<Entry>, T': seq<Entry>, base: nat, size: nat, n: nat, h: nat, e: Entry)
    requires Put(T, T', base, size, n, h, e)
    ensures |T'| == |T| && base + size <= |T| && Filled(T', base, size, n, h, e) && forall z ::
      0 <= z < |T| && !(base <= z < base + size) ==> T'[z] == T[z]
  {
    hide Filled;
  }

  /** An earlier long code: in the same table, or in one before it. */
  lemma KeepLong(T: seq<Entry>, T': seq<Entry>, typ: CodeType, lens: seq<int>, root: nat, used: nat, k: nat, low: nat,
      next: nat, curr: nat, j: nat)
    requires AllLens(lens, typ) && j < k < Total(lens) && Fit(lens) && Size(lens, j) > root &&
      Size(lens, k) >= Size(lens, j)
    requires low == Low(Huff(lens, k), root) && Current(T, lens, root, used, true, low, next, curr, root)
    requires Put(T, T', next, Pow2(curr), Size(lens, k) - root, High(Huff(lens, k), root),
      Leaf(lens, typ, k, Size(lens, k) - root))
    requires Linked(T, root, used, Size(lens, j), Huff(lens, j), Leaf(lens, typ, j, Size(lens, j) - root)) &&
      Before(T, root, Huff(lens, j), low, next)
    requires Low(Huff(lens, k), Size(lens, j)) != Huff(lens, j)
    ensures Linked(T', root, used, Size(lens, j), Huff(lens, j), Leaf(lens, typ, j, Size(lens, j) - root)) &&
      Before(T', root, Huff(lens, j), low, next)
  {
    hide *;
    LongParts(T, lens, root, used, low, next, curr, root);
    var n, h, e := Size(lens, k), Huff(lens, k), Leaf(lens, typ, k, Size(lens, k) - root);
    var n', h', e' := Size(lens, j), Huff(lens, j), Leaf(lens, typ, j, Size(lens, j) - root);
    PutOutside(T, T', next, Pow2(curr), n - root, High(h, root), e);
    ModOf(h', root);
    var x := Low(h', root);
    if x == low {
      ValueFits(lens, j);
      LinkedKeeps(T, T', root, used, next, curr, n, h, e, n', h', e', x);
      BeforeLow(T', root, h', low, next, curr);
    } else {
      BeforeParts(T, root, h', low, next);
      LinkedParts(T, root, used, n', h', e', x);
      LinkedStays(T, T', root, used, used, n', h', e', x);
      BeforeIntro(T', root, h', low, next);
    }
  }

  lemma LinkedParts(T: seq<Entry>, root: nat, used: nat, n: nat, h: nat, e: Entry, x: nat)
    requires Linked(T, root, used, n, h, e) && x == Low(h, root)
    ensures x < Pow2(root) && x < |T| && Pow2(root) <= T[x].val && 1 <= T[x].op <= 15 &&
      T[x].val + Pow2(T[x].op) <= used <= |T| && T[x].bits == root
  {
    hide Pow2;
    hide Filled;
    hide Low;
  }

  lemma BeforeParts(T: seq<Entry>, root: nat, h: nat, low: int, next: nat)
    requires Before(T, root, h, low, next)
    ensures var x := Low(h, root); x < |T| && 0 <= T[x].op && (x == low || T[x].val + Pow2(T[x].op) <= next)
  {
    hide Pow2;
  }

  lemma BeforeIntro(T: seq<Entry>, root: nat, h: nat, low: int, next: nat)
    requires var x := Low(h, root); x < |T| && 0 <= T[x].op && (x == low || T[x].val + Pow2(T[x].op) <= next)
    ensures Before(T, root, h, low, next)
  {
    hide Pow2;
  }

  lemma BeforeLow(T: seq<Entry>, root: nat, h: nat, low: nat, next: nat, curr: nat)
    requires Low(h, root) == low < |T| && 0 <= T[low].op
    ensures Before(T, root, h, low, next)
  {
    hide Pow2;
  }

  /** The code entered last. */
  lemma NowLinked(T: seq<Entry>, T': seq<Entry>, root: nat, used: nat, low: nat, next: nat, curr: nat, n: nat, h: nat,
      e: Entry, lens: seq<int>, k: nat)
    requires low < |T| && Link(T, root, used, low) && T[low] == Entry(curr, root, next) &&
      Roomy(lens, root, low, curr) && Pow2(root) <= next && low < Pow2(root)
    requires k < Total(lens) && n == Size(lens, k) > root && h == Huff(lens, k) && low == Low(h, root)
    requires Filled(T', next, Pow2(curr), n - root, High(h, root), e) && |T'| == |T|
    requires forall z :: 0 <= z < |T| && !(next <= z < next + Pow2(curr)) ==> T'[z] == T[z]
    ensures Linked(T', root, used, n, h, e) && T'[low] == T[low]
  {
    hide Pow2;
    hide Size;
    hide Huff;
    hide Filled;
    hide Total;
  }

  lemma CurrentKept(T: seq<Entry>, T': seq<Entry>, lens: seq<int>, root: nat, used: nat, low: nat, next: nat, curr: nat,
      drop: nat)
    requires Current(T, lens, root, used, true, low, next, curr, drop) && |T'| == |T| && low < |T| && T'[low] == T[low]
    ensures Current(T', lens, root, used, true, low, next, curr, drop)
  {
    hide Pow2;
    hide Roomy;
  }

  /* ---------- going on to the next code ---------- */

  lemma ShortParts(T: seq<Entry>, lens: seq<int>, root: nat, used: nat, low: int, next: nat, curr: nat, drop: nat)
    requires Current(T, lens, root, used, false, low, next, curr, drop)
    ensures 1 <= root <= MAXBITS && used <= |T| && drop == 0 && next == 0 && curr == root && used == Pow2(root) &&
      low == -1
  {
    hide Pow2;
  }

  lemma OverParts(T: seq<Entry>, typ: CodeType, lens: seq<int>, root: nat, used: nat, k: nat, low: int, next: nat,
      curr: nat, drop: nat)
    requires Over(T, typ, lens, root, used, k, low, next, curr, drop)
    ensures AllLens(lens, typ) && k < Total(lens) && Fit(lens) && Entered(T, typ, lens, root, used, k + 1, low, next)
    ensures Current(T, lens, root, used, Size(lens, k) > root, low, next, curr, drop)
    ensures Size(lens, k) > root ==> low == Low(Huff(lens, k), root)
  {
    hide Pow2;
    hide Size;
    hide Huff;
    hide AllLens;
    hide Fit;
    hide Entered;
    hide Current;
    hide Total;
  }

  lemma ReadyIntro(T: seq<Entry>, typ: CodeType, lens: seq<int>, root: nat, used: nat, k: nat, low: int, next: nat,
      curr: nat, drop: nat)
    requires AllLens(lens, typ) && k < Total(lens) && Fit(lens) && Entered(T, typ, lens, root, used, k, low, next)
    requires Current(T, lens, root, used, Size(lens, k) > root, low, next, curr, drop)
    requires Size(lens, k) > root ==> low == Low(Huff(lens, k), root)
    ensures Ready(T, typ, lens, root, used, k, low, next, curr, drop)
  {
    hide Pow2;
    hide Size;
    hide Huff;
    hide AllLens;
    hide Fit;
    hide Entered;
    hide Current;
    hide Total;
  }

  /** The next code belongs to the table at hand. */
  lemma Advance(T: seq<Entry>, typ: CodeType, lens: seq<int>, root: nat, used: nat, k: nat, low: int, next: nat,
      curr: nat, drop: nat)
    requires Over(T, typ, lens, root, used, k, low, next, curr, drop) && k + 1 < Total(lens)
    requires Size(lens, k + 1) <= root || Low(Huff(lens, k + 1), root) == low
    ensures Ready(T, typ, lens, root, used, k + 1, low, next, curr, drop)
  {
    hide *;
    OverParts(T, typ, lens, root, used, k, low, next, curr, drop);
    NextFrom(lens, k);
    if Size(lens, k) <= root { ShortParts(T, lens, root, used, low, next, curr, drop); }
    ReadyIntro(T, typ, lens, root, used, k + 1, low, next, curr, drop);
  }

  /** The tables so far end at used, and hold the root table. */
  lemma UsedParts(T: seq<Entry>, lens: seq<int>, root: nat, used: nat, long: bool, low: int, next: nat, curr: nat,
      drop: nat)
    requires Current(T, lens, root, used, long, low, next, curr, drop)
    ensures 1 <= root <= MAXBITS && Pow2(root) <= used <= |T| && next + Pow2(curr) == used
  {
    hide Pow2;
    hide Roomy;
    if long { LongParts(T, lens, root, used, low, next, curr, drop); }
  }

  /** A table is begun for it, and linked from the root table. */
  lemma NewTable(T: seq<Entry>, typ: CodeType, lens: seq<int>, root: nat, used: nat, k: nat, low: int, next: nat,
      curr: nat, drop: nat, x: nat, curr': nat)
    requires Over(T, typ, lens, root, used, k, low, next, curr, drop) && k + 1 < Total(lens) && Size(lens, k + 1) > root
    requires x == Low(Huff(lens, k + 1), root) && x != low && 1 <= curr' <= 15 && used + Pow2(curr') <= |T| &&
      Roomy(lens, root, x, curr')
    ensures x < |T| &&
      Ready(T[x := Entry(curr', root, used)], typ, lens, root, used + Pow2(curr'), k + 1, x, used, curr', root)
  {
    hide *;
    OverParts(T, typ, lens, root, used, k, low, next, curr, drop);
    UsedParts(T, lens, root, used, Size(lens, k) > root, low, next, curr, drop);
    ModOf(Huff(lens, k + 1), root);
    LowIs(Huff(lens, k + 1), root);
    var T' := T[x := Entry(curr', root, used)];
    var used' := used + Pow2(curr');
    forall j | 0 <= j < k + 1 ensures One(T', typ, lens, root, used', x, used, j) {
      OneIs(T', typ, lens, root, used', x, used, j);
      EnteredAt(T, typ, lens, root, used, k + 1, low, next, j);
      FoundSplit(T, typ, lens, root, used, j);
      FoundSplit(T', typ, lens, root, used', j);
      if Size(lens, j) <= root {
        PrefixFree(lens, j, k + 1);
        LinkKeeps(T, x, Entry(curr', root, used), Pow2(root), Huff(lens, k + 1), Size(lens, j), Huff(lens, j),
          Leaf(lens, typ, j, Size(lens, j)), root);
      } else {
        SizesGrow(lens, j, k);
        FreshIndex(lens, root, j, k);
        ElsewhereLinked(T, T', typ, lens, root, used, used', j, x);
      }
    }
    EnteredIntro(T', typ, lens, root, used', k + 1, x, used);
    NewCurrent(T', lens, root, used', x, used, curr');
    ReadyIntro(T', typ, lens, root, used', k + 1, x, used, curr', root);
  }

  lemma ElsewhereLinked(T: seq<Entry>, T': seq<Entry>, typ: CodeType, lens: seq<int>, root: nat, used: nat, used': nat,
      j: nat, x: nat)
    requires AllLens(lens, typ) && j < Total(lens) && Size(lens, j) > root && x < Pow2(root) && x < |T| &&
      used <= used' <= |T|
    requires Linked(T, root, used, Size(lens, j), Huff(lens, j), Leaf(lens, typ, j, Size(lens, j) - root)) &&
      Low(Huff(lens, j), root) != x
    requires |T'| == |T| && forall z :: 0 <= z < |T| && z != x ==> T'[z] == T[z]
    ensures Linked(T', root, used', Size(lens, j), Huff(lens, j), Leaf(lens, typ, j, Size(lens, j) - root)) &&
      Before(T', root, Huff(lens, j), x, used)
  {
    hide *;
    var n, h, e := Size(lens, j), Huff(lens, j), Leaf(lens, typ, j, Size(lens, j) - root);
    var y := Low(h, root);
    LinkedParts(T, root, used, n, h, e, y);
    LinkedStays(T, T', root, used, used', n, h, e, y);
    BeforeIntro(T', root, h, x, used);
  }

  lemma NewCurrent(T: seq<Entry>, lens: seq<int>, root: nat, used: nat, x: nat, next: nat, curr: nat)
    requires 1 <= root <= MAXBITS && x < Pow2(root) <= next && x < |T| && T[x] == Entry(curr, root, next) &&
      1 <= curr <= 15
    requires next + Pow2(curr) == used <= |T| && Roomy(lens, root, x, curr)
    ensures Current(T, lens, root, used, true, x, next, curr, root)
  {
    hide Pow2;
    hide Roomy;
  }

  /** The root table, with no code entered. */
  lemma ReadyFirst(T: seq<Entry>, typ: CodeType, lens: seq<int>, root: nat)
    requires AllLens(lens, typ) && 0 < Total(lens) && Fit(lens) && 1 <= root <= MAXBITS && Pow2(root) <= |T| &&
      Size(lens, 0) <= root
    ensures Ready(T, typ, lens, root, Pow2(root), 0, -1, 0, root, 0)
  {
    hide Pow2;
    hide Size;
    hide Total;
    hide AllLens;
    hide Fit;
  }

  /** After the last code. */
  lemma AllEntered(T: seq<Entry>, typ: CodeType, lens: seq<int>, root: nat, used: nat, k: nat, low: int, next: nat,
      curr: nat, drop: nat)
    requires Over(T, typ, lens, root, used, k, low, next, curr, drop) && k + 1 == Total(lens)
    ensures Decodes(T, typ, lens, root, used)
  {
    hide Found;
    hide Size;
    hide Huff;
    hide AllLens;
    hide Total;
    hide Fit;
    hide Current;
    hide Pow2;
    forall j | 0 <= j < Total(lens)
      ensures Found(T, typ, lens, root, used, j) { EnteredAt(T, typ, lens, root, used, k + 1, low, next, j); }
  }

  /* ---------- filling the slots of one code ---------- */

  /** Slots numbered from fill on have been filled. */
  ghost predicate PutFrom(T: seq<Entry>, T': seq<Entry>, base: nat, size: nat, n: nat, h: nat, e: Entry, fill: nat) {
    |T'| == |T| && base + size <= |T| && fill <= size && Low(fill, n) == 0 && h < Pow2(n) &&
    forall z :: 0 <= z < |T| ==> T'[z] == if base + fill <= z < base + size && Low(z - base, n) == h then e else T[z]
  }

  lemma PutStart(T: seq<Entry>, base: nat, n: nat, h: nat, e: Entry, curr: nat)
    requires base + Pow2(curr) <= |T| && n <= curr && h < Pow2(n)
    ensures PutFrom(T, T, base, Pow2(curr), n, h, e, Pow2(curr))
  {
    hide Pow2;
    Pow2Sum(n, curr - n);
    QuotientIs(Pow2(curr), Pow2(n), Pow2(curr - n), 0);
  }

  lemma LowNext(x: nat, n: nat)
    requires Low(x, n) == 0 && x > 0
    ensures x >= Pow2(n) && Low(x - Pow2(n), n) == 0
  {
    hide Pow2;
    var p := Pow2(n);
    DivMod(x, p);
    var q := x / p;
    assert x == q * p;
    assert q >= 1;
    MulAtLeast(q, p);
    MulSplit(q, 1, p);
    QuotientIs(x - p, p, q - 1, 0);
  }

  lemma LowAt(x: nat, n: nat, h: nat)
    requires Low(x, n) == 0 && h < Pow2(n)
    ensures Low(x + h, n) == h
  {
    hide Pow2;
    DivMod(x, Pow2(n));
    QuotientIs(x + h, Pow2(n), x / Pow2(n), h);
  }

  lemma PutStep(T: seq<Entry>, T': seq<Entry>, base: nat, size: nat, n: nat, h: nat, e: Entry, fill: nat)
    requires PutFrom(T, T', base, size, n, h, e, fill) && fill > 0
    ensures fill >= Pow2(n) && base + h + (fill - Pow2(n)) < |T'|
    ensures PutFrom(T, T'[base + h + (fill - Pow2(n)) := e], base, size, n, h, e, fill - Pow2(n))
  {
    hide Pow2;
    hide Low;
    LowNext(fill, n);
    var f := fill - Pow2(n);
    var at := base + h + f;
    LowAt(f, n, h);
    forall z | 0 <= z < |T|
      ensures T'[at := e][z] == if base + f <= z < base + size && Low(z - base, n) == h then e else T[z] {
      if base + f <= z < base + fill {
        LowAt(f, n, z - base - f);
        assert f + (z - base - f) == z - base;
      }
      assert z == at ==> z - base == f + h;
    }
  }

  lemma PutEnd(T: seq<Entry>, T': seq<Entry>, base: nat, size: nat, n: nat, h: nat, e: Entry)
    requires PutFrom(T, T', base, size, n, h, e, 0)
    ensures Put(T, T', base, size, n, h, e)
  {
    hide Pow2;
  }

  /** Replicate the entry for those indices whose low n bits are h. */
  method Replicate(table: array<Entry>, start: nat, base: nat, n: nat, h: nat, curr: nat, here: Entry)
    requires start + base + Pow2(curr) <= table.Length && n <= curr && h < Pow2(n)
    modifies table
    ensures Put(old(table[start..]), table[start..], base, Pow2(curr), n, h, here) &&
      table[..start] == old(table[..start])
  {
    hide *;
    ghost var T := table[start..];
    var incr, fill := Pow2(n), Pow2(curr);
    PutStart(T, base, n, h, here, curr);
    while fill != 0
      invariant PutFrom(T, table[start..], base, Pow2(curr), n, h, here, fill) && table[..start] == old(table[..start])
      decreases fill
    {
      ghost var T' := table[start..];
      PutStep(T, T', base, Pow2(curr), n, h, here, fill);
      fill := fill - incr;
      table[start + base + h + fill] := here;
      assert table[start..] == T'[base + h + fill := here];
    }
    PutEnd(T, table[start..], base, Pow2(curr), n, h, here);
  }

  /* ---------- the size of a second table ---------- */

  /** left is what the codes of at most n bits leave of the share, in words of n bits. */
  ghost predicate LeftOver(lens: seq<int>, root: nat, k: nat, n: nat, left: int)
    requires k < Total(lens) && root <= n <= MAXBITS
  {
    left * Pow2(MAXBITS - n) + Reach(lens, k, n) == From(lens, k) + Pow2(MAXBITS - root)
  }

  lemma LeftStart(lens: seq<int>, root: nat, k: nat)
    requires k < Total(lens) && 1 <= root < Size(lens, k)
    ensures LeftBefore(lens, root, k, Size(lens, k), Pow2(Size(lens, k) - root))
  {
    Pow2Sum(Size(lens, k) - root, MAXBITS - Size(lens, k));
  }

  /** The same before the codes of n bits, in words of n bits. */
  ghost predicate LeftBefore(lens: seq<int>, root: nat, k: nat, n: nat, left: int)
    requires k < Total(lens) && 1 <= n <= MAXBITS && root <= MAXBITS
  {
    left * Pow2(MAXBITS - n) + Reach(lens, k, n - 1) == From(lens, k) + Pow2(MAXBITS - root)
  }

  lemma LeftTake(lens: seq<int>, root: nat, k: nat, n: nat, left: int)
    requires k < Total(lens) && Size(lens, k) <= n <= MAXBITS && root <= n && LeftBefore(lens, root, k, n, left)
    ensures LeftOver(lens, root, k, n, left - ToCome(lens, MAXBITS, k, n))
  {
    hide Pow2;
    hide Reach;
    hide From;
    hide ToCome;
    hide Size;
    ReachStep(lens, k, n);
    Distribute2(left - ToCome(lens, MAXBITS, k, n), ToCome(lens, MAXBITS, k, n), Pow2(MAXBITS - n));
  }

  lemma LeftDouble(lens: seq<int>, root: nat, k: nat, n: nat, left: int)
    requires k < Total(lens) && root <= n < MAXBITS && LeftOver(lens, root, k, n, left)
    ensures LeftBefore(lens, root, k, n + 1, 2 * left)
  {
    hide Reach;
    hide From;
    assert Pow2(MAXBITS - n) == 2 * Pow2(MAXBITS - (n + 1));
    Doubled(left, Pow2(MAXBITS - (n + 1)));
  }

  lemma LeftNone(lens: seq<int>, root: nat, k: nat, curr: nat, left: int)
    requires k < Total(lens) && root < Size(lens, k) <= root + curr <= MAXBITS && Fit(lens) && left <= 0
    requires From(lens, k) == Front(lens, root, k) * Pow2(MAXBITS - root) && LeftOver(lens, root, k, root + curr, left)
    ensures Roomy(lens, root, Low(Huff(lens, k), root), curr)
  {
    hide Pow2;
    hide From;
    hide Front;
    hide Upto;
    hide Roomy;
    hide Fit;
    hide Huff;
    hide Low;
    hide Size;
    MulNonNegative(-left, Pow2(MAXBITS - (root + curr)));
    assert left * Pow2(MAXBITS - (root + curr)) <= 0;
    RoomyShare(lens, root, k, curr);
  }

  /** The counts of codes still to come. */
  ghost predicate Counts(count: seq<int>, lens: seq<int>, k: nat) {
    k <= Total(lens) && |count| == MAXBITS + 1 && forall n ::
    1 <= n <= MAXBITS ==> count[n] == ToCome(lens, MAXBITS, k, n)
  }

  lemma CountAt(count: seq<int>, lens: seq<int>, k: nat, n: nat)
    requires Counts(count, lens, k) && 1 <= n <= MAXBITS
    ensures |count| == 16 && MAXBITS == 15 && k <= Total(lens) && k <= |Order(lens, MAXBITS)| &&
      count[n] == ToCome(lens, MAXBITS, k, n)
  {
  }

  /** Where the codes of at most n bits do not fill the share, a longer code has its index. */
  lemma LongerInShare(lens: seq<int>, root: nat, k: nat, n: nat) returns (j: nat)
    requires k < Total(lens) && root < Size(lens, k) <= n < MAXBITS && Fit(lens) && Taken(lens) == Pow2(MAXBITS)
    requires From(lens, k) == Front(lens, root, k) * Pow2(MAXBITS - root)
    requires Upto(lens, MAXBITS, n) < From(lens, k) + Pow2(MAXBITS - root)
    ensures j < Total(lens) && Size(lens, j) > n && Low(Huff(lens, j), root) == Low(Huff(lens, k), root)
  {
    hide *;
    LengthsBound();
    TakenIs(lens);
    TotalIs(lens);
    StartsAtZero(lens, MAXBITS);
    ShareEnd(lens, root, k);
    var w := Upto(lens, MAXBITS, n);
    j := ShareOf(lens, w, 0);
    FromIs(lens, j);
    FromIs(lens, k);
    Parts(lens, k);
    Parts(lens, j);
    DivideFrom(lens, j, n);
    DivideFrom(lens, k, n);
    FrontIs(lens, root, j);
    InShare(Front(lens, root, k), root, MAXBITS, w);
    InShare(Front(lens, root, k), root, MAXBITS, From(lens, j));
    IndexIsFront(lens, root, j);
    IndexIsFront(lens, root, k);
  }

  /** The share of an index lies within the words. */
  lemma ShareEnd(lens: seq<int>, root: nat, k: nat)
    requires k < Total(lens) && root < Size(lens, k) && Fit(lens)
    requires From(lens, k) == Front(lens, root, k) * Pow2(MAXBITS - root)
    ensures From(lens, k) + Pow2(MAXBITS - root) <= Pow2(MAXBITS)
  {
    hide *;
    LengthsBound();
    IndexIsFront(lens, root, k);
    Pow2Sum(root, MAXBITS - root);
    MulLe(Front(lens, root, k) + 1, Pow2(root), Pow2(MAXBITS - root));
    Distribute2(Front(lens, root, k), 1, Pow2(MAXBITS - root));
  }

  /* ---------- the space the tables need ---------- */

  /** How many bits more than root the longest of the first i codes with index low has. */
  ghost function Deep(lens: seq<int>, root: nat, low: nat, i: nat): (n: nat)
    requires i <= Total(lens)
  {
    if i == 0 then 0 else
      var n := Deep(lens, root, low, i - 1);
      if Size(lens, i - 1) > root + n && Low(Huff(lens, i - 1), root) == low then Size(lens, i - 1) - root else n
  }

  /** Code k is the first with its index in a second table. */
  ghost predicate Opens(lens: seq<int>, root: nat, k: nat)
    requires k < Total(lens)
  {
    Size(lens, k) > root &&
    (k == 0 || Size(lens, k - 1) <= root || Low(Huff(lens, k - 1), root) != Low(Huff(lens, k), root))
  }

  /** The slots needed for the first i codes: the root table, and for each index of longer codes a table for the
      longest of them. */
  ghost function Need(lens: seq<int>, root: nat, i: nat): (n: nat)
    requires i <= Total(lens)
  {
    if i == 0 then Pow2(root) else
      Need(lens, root, i - 1) +
      if Opens(lens, root, i - 1) then Pow2(Deep(lens, root, Low(Huff(lens, i - 1), root), Total(lens))) else 0
  }

  /** More than there is. */
  ghost predicate Exceeds(typ: CodeType, need: nat) {
    match typ
    case CODES => false
    case LENS => need >= 852
    case DISTS => need >= 592
  }

  /** The index bits of the root table: as asked for, but not more than the longest code has or fewer than the
      shortest. */
  ghost predicate RootIs(lens: seq<int>, bits: nat, root: nat) {
    if root > bits then (exists i :: 0 <= i < |lens| && lens[i] == root) && forall i ::
      0 <= i < |lens| && lens[i] > 0 ==> lens[i] >= root
    else if root < bits then (exists i :: 0 <= i < |lens| && lens[i] == root) && forall i ::
      0 <= i < |lens| ==> lens[i] <= root
    else (exists i :: 0 <= i < |lens| && 0 < lens[i] <= root) && exists i :: 0 <= i < |lens| && lens[i] >= root
  }

  /** The tables are larger than the space for them. */
  ghost predicate Oversized(lens: seq<int>, typ: CodeType, bits: nat) {
    Total(lens) > 0 && exists root: nat :: root >= 1 && RootIs(lens, bits, root) && NeedsMore(lens, typ, root)
  }

  ghost predicate NeedsMore(lens: seq<int>, typ: CodeType, root: nat) {
    Exceeds(typ, Need(lens, root, Total(lens)))
  }

  lemma OversizedIs(lens: seq<int>, typ: CodeType, bits: nat, root: nat)
    requires Total(lens) > 0 && root >= 1 && RootIs(lens, bits, root)
    ensures Oversized(lens, typ, bits) <==> NeedsMore(lens, typ, root)
  {
    hide NeedsMore;
    hide Total;
    if Oversized(lens, typ, bits) {
      var root': nat :| root' >= 1 && RootIs(lens, bits, root') && NeedsMore(lens, typ, root');
      assert root' == root;
    }
  }

  lemma {:induction false} DeepAtLeast(lens: seq<int>, root: nat, low: nat, i: nat, j: nat)
    requires j < i <= Total(lens) && Size(lens, j) > root && Low(Huff(lens, j), root) == low
    ensures Deep(lens, root, low, i) >= Size(lens, j) - root
    decreases i
  {
    hide Size;
    hide Huff;
    hide Total;
    hide Low;
    if j < i - 1 { DeepAtLeast(lens, root, low, i - 1, j); }
  }

  lemma {:induction false} DeepAtMost(lens: seq<int>, root: nat, low: nat, i: nat, c: nat)
    requires i <= Total(lens) && Roomy(lens, root, low, c)
    ensures Deep(lens, root, low, i) <= c
    decreases i
  {
    hide Size;
    hide Huff;
    hide Total;
    hide Low;
    if i > 0 { DeepAtMost(lens, root, low, i - 1, c); }
  }

  lemma DeepIs(lens: seq<int>, root: nat, low: nat, c: nat, j: nat)
    requires Roomy(lens, root, low, c) && j < Total(lens) && Size(lens, j) > root && Size(lens, j) >= root + c &&
      Low(Huff(lens, j), root) == low
    ensures Deep(lens, root, low, Total(lens)) == c
  {
    hide *;
    DeepAtLeast(lens, root, low, Total(lens), j);
    DeepAtMost(lens, root, low, Total(lens), c);
  }

  lemma {:induction false} NeedGrows(lens: seq<int>, root: nat, i: nat, j: nat)
    requires i <= j <= Total(lens)
    ensures Need(lens, root, i) <= Need(lens, root, j)
    decreases j
  {
    hide Opens;
    hide Deep;
    hide Total;
    hide Huff;
    hide Low;
    hide Pow2;
    if i < j { NeedGrows(lens, root, i, j - 1); }
  }

  lemma NeedNext(lens: seq<int>, root: nat, k: nat)
    requires k < Total(lens)
    ensures Need(lens, root, k + 1) == Need(lens, root, k) +
      if Opens(lens, root, k) then Pow2(Deep(lens, root, Low(Huff(lens, k), root), Total(lens))) else 0
    ensures Need(lens, root, 0) == Pow2(root)
  {
    hide Opens;
    hide Deep;
    hide Total;
    hide Huff;
    hide Low;
    hide Pow2;
  }

  lemma OpensIs(lens: seq<int>, root: nat, k: nat)
    requires k < Total(lens)
    ensures Opens(lens, root, k) <==>
      Size(lens, k) > root &&
      (k == 0 || Size(lens, k - 1) <= root || Low(Huff(lens, k - 1), root) != Low(Huff(lens, k), root))
  {
    hide Size;
    hide Huff;
    hide Total;
    hide Low;
  }

  lemma TooMuchGrows(typ: CodeType, lens: seq<int>, root: nat, k: nat)
    requires k <= Total(lens) && TooMuch(typ, Need(lens, root, k))
    ensures NeedsMore(lens, typ, root)
  {
    hide Need;
    hide Total;
    NeedGrows(lens, root, k, Total(lens));
  }

  lemma EnoughRoom(typ: CodeType, lens: seq<int>, root: nat)
    requires !TooMuch(typ, Need(lens, root, Total(lens)))
    ensures !NeedsMore(lens, typ, root)
  {
    hide Need;
    hide Total;
  }

  /** Determine the length of the next table: enough for all codes that share the root index. */
  method SizeTable(count: array<int>, len: nat, root: nat, max: nat, ghost lens: seq<int>, ghost k: nat)
      returns (curr: nat)
    requires k < Total(lens) && len == Size(lens, k) && 1 <= root < len && Fit(lens) && Counts(count[..], lens, k) &&
      Longest(lens, max) && len <= max <= MAXBITS && Taken(lens) == Pow2(MAXBITS)
    requires From(lens, k) == Front(lens, root, k) * Pow2(MAXBITS - root)
    ensures 1 <= curr <= 15 && root + curr <= max && Roomy(lens, root, Low(Huff(lens, k), root), curr) &&
      len - root <= curr && curr == Deep(lens, root, Low(Huff(lens, k), root), Total(lens))
  {
    hide *;
    SizeBound(lens, k);
    CountAt(count[..], lens, k, 1);
    ghost var j: nat := k;
    curr := len - root;
    var left: int := Pow2(curr);
    LeftStart(lens, root, k);
    while curr + root < max
      invariant 1 <= len - root <= curr && root + curr <= max && LeftBefore(lens, root, k, root + curr, left)
      invariant j < Total(lens) && Size(lens, j) >= root + curr && Low(Huff(lens, j), root) == Low(Huff(lens, k), root)
      decreases max - curr
    {
      CountAt(count[..], lens, k, root + curr);
      LeftTake(lens, root, k, root + curr, left);
      left := left - count[..][curr + root];
      if left <= 0 {
        LeftNone(lens, root, k, curr, left);
        DeepIs(lens, root, Low(Huff(lens, k), root), curr, j);
        return;
      }
      LeftSome(lens, root, k, root + curr, left);
      j := LongerInShare(lens, root, k, root + curr);
      LeftDouble(lens, root, k, root + curr, left);
      curr := curr + 1;
      left := left * 2;
    }
    RoomyAll(lens, root, Low(Huff(lens, k), root), curr);
    DeepIs(lens, root, Low(Huff(lens, k), root), curr, j);
  }

  lemma LeftSome(lens: seq<int>, root: nat, k: nat, n: nat, left: int)
    requires k < Total(lens) && root <= n <= MAXBITS && Size(lens, k) <= n && LeftOver(lens, root, k, n, left) &&
      left > 0
    ensures Upto(lens, MAXBITS, n) < From(lens, k) + Pow2(MAXBITS - root)
  {
    hide Pow2;
    hide From;
    hide Upto;
    hide Size;
    MulAtLeast(left, Pow2(MAXBITS - n));
  }

  /* ---------- counting and sorting ---------- */

  /** Accumulate lengths for codes. */
  method CountLengths(lens: seq<int>) returns (count: array<int>)
    requires forall i :: 0 <= i < |lens| ==> 0 <= lens[i] <= MAXBITS
    ensures fresh(count) && count.Length == MAXBITS + 1 && forall n ::
      0 <= n <= MAXBITS ==> count[n] == Count(lens, |lens|, n)
  {
    count := new int[MAXBITS + 1](_ => 0);
    var sym := 0;
    while sym < |lens|
      invariant 0 <= sym <= |lens| && forall n :: 0 <= n <= MAXBITS ==> count[n] == Count(lens, sym, n)
    {
      count[lens[sym]] := count[lens[sym]] + 1;
      sym := sym + 1;
    }
  }

  /** The longest length there is, or 0. */
  method FindMax(count: array<int>, ghost lens: seq<int>) returns (max: nat)
    requires count.Length == MAXBITS + 1 && forall n :: 0 <= n <= MAXBITS ==> count[n] == Count(lens, |lens|, n)
    ensures max <= MAXBITS && (max > 0 ==> count[max] != 0) && forall n :: max < n <= MAXBITS ==> count[n] == 0
  {
    max := MAXBITS;
    while max >= 1
      invariant 0 <= max <= MAXBITS && forall n :: max < n <= MAXBITS ==> count[n] == 0
    {
      if count[max] != 0 { break; }
      max := max - 1;
    }
  }

  method FindMin(count: array<int>, max: nat) returns (min: nat)
    requires count.Length == MAXBITS + 1 && 1 <= max <= MAXBITS && count[max] != 0
    ensures 1 <= min <= max && count[min] != 0 && forall n :: 1 <= n < min ==> count[n] == 0
  {
    min := 1;
    while min < max
      invariant 1 <= min <= max && forall n :: 1 <= n < min ==> count[n] == 0
    {
      if count[min] != 0 { break; }
      min := min + 1;
    }
  }

  lemma {:induction false} CountSome(lens: seq<int>, i: nat, n: int)
    requires i <= |lens| && Count(lens, i, n) > 0
    ensures exists s :: 0 <= s < i && lens[s] == n
    decreases i
  {
    if lens[i - 1] != n {
      CountSome(lens, i - 1, n);
    }
  }

  /** Codes are as long as the counts say. */
  lemma SizeCounted(lens: seq<int>, k: nat)
    requires k < Total(lens)
    ensures Count(lens, |lens|, Size(lens, k)) > 0
  {
    hide Order;
    var n, j := Standing(lens, MAXBITS, k);
    StartIs(lens, MAXBITS, k, n, j);
  }

  /** The shortest code comes first, and none is longer than max. */
  lemma Extremes(lens: seq<int>, min: nat, max: nat)
    requires 1 <= min <= max <= MAXBITS && Count(lens, |lens|, min) > 0
    requires (forall n :: 1 <= n < min ==> Count(lens, |lens|, n) == 0) && forall n ::
      max < n <= MAXBITS ==> Count(lens, |lens|, n) == 0
    ensures Total(lens) > 0 && Size(lens, 0) == min && Longest(lens, max)
  {
    hide Order;
    hide Count;
    hide Size;
    CountSome(lens, |lens|, min);
    var s: nat :| s < |lens| && lens[s] == min;
    var k := OrderHas(lens, MAXBITS, s);
    SizeIs(lens, k, s);
    SizesGrow(lens, 0, k);
    forall j | 0 <= j < Total(lens) ensures min <= Size(lens, j) <= max {
      SizeCounted(lens, j);
      SizeBound(lens, j);
    }
  }

  lemma SizeIs(lens: seq<int>, k: nat, s: nat)
    requires k < |Order(lens, MAXBITS)| && Order(lens, MAXBITS)[k] == s
    ensures k < Total(lens) && s < |lens| && Size(lens, k) == lens[s]
  {
    StandingLen(lens, MAXBITS, k);
  }

  lemma NoCodes(lens: seq<int>)
    requires forall n :: 1 <= n <= MAXBITS ==> Count(lens, |lens|, n) == 0
    ensures Total(lens) == 0
  {
    hide Order;
    hide Count;
    if Total(lens) > 0 {
      SizeCounted(lens, 0);
      SizeBound(lens, 0);
    }
  }

  /** What is left of the words, after the codes of at most n bits, in words of n bits. */
  ghost predicate Spare(lens: seq<int>, n: nat, left: int)
    requires n <= MAXBITS
  {
    left * Pow2(MAXBITS - n) == Pow2(MAXBITS) - Upto(lens, MAXBITS, n)
  }

  lemma SpareStart(lens: seq<int>)
    ensures Spare(lens, 0, 1)
  {
    UptoZero(lens, MAXBITS);
  }

  lemma SpareStep(lens: seq<int>, n: nat, left: int)
    requires 1 <= n <= MAXBITS && Spare(lens, n - 1, left)
    ensures Spare(lens, n, 2 * left - Count(lens, |lens|, n))
  {
    hide Upto;
    hide Count;
    UptoStep(lens, MAXBITS, n);
    assert Pow2(MAXBITS - (n - 1)) == 2 * Pow2(MAXBITS - n);
    Doubled(left, Pow2(MAXBITS - n));
    Distribute2(2 * left - Count(lens, |lens|, n), Count(lens, |lens|, n), Pow2(MAXBITS - n));
  }

  lemma SpareNegative(lens: seq<int>, n: nat, left: int)
    requires n <= MAXBITS && Spare(lens, n, left) && left < 0
    ensures Upto(lens, MAXBITS, MAXBITS) > Pow2(MAXBITS)
  {
    hide Upto;
    hide Pow2;
    UptoMonotone(lens, MAXBITS, n, MAXBITS);
    MulAtLeast(-left, Pow2(MAXBITS - n));
  }

  lemma SpareEnd(lens: seq<int>, left: int)
    requires Spare(lens, MAXBITS, left)
    ensures left == Pow2(MAXBITS) - Upto(lens, MAXBITS, MAXBITS)
  {
    assert Pow2(0) == 1;
  }

  /** Check for an over-subscribed set of lengths; what is left otherwise. */
  method CheckLengths(count: array<int>, ghost lens: seq<int>) returns (left: int)
    requires count.Length == MAXBITS + 1 && forall n :: 0 <= n <= MAXBITS ==> count[n] == Count(lens, |lens|, n)
    ensures left < 0 <==> Upto(lens, MAXBITS, MAXBITS) > Pow2(MAXBITS)
    ensures left >= 0 ==> left == Pow2(MAXBITS) - Upto(lens, MAXBITS, MAXBITS)
  {
    hide Pow2;
    hide Upto;
    hide Count;
    hide Spare;
    left := 1;
    SpareStart(lens);
    var len := 1;
    while len <= MAXBITS
      invariant 1 <= len <= MAXBITS + 1 && left >= 0 && Spare(lens, len - 1, left)
    {
      SpareStep(lens, len, left);
      left := left * 2;
      left := left - count[len];
      if left < 0 {
        SpareNegative(lens, len, left);
        return;
      }
      len := len + 1;
    }
    SpareEnd(lens, left);
  }

  /** Symbols below i with codes of n bits are in their places, from an offset on. */
  ghost predicate PlacedOf(work: seq<int>, lens: seq<int>, i: nat, n: nat)
    requires i <= |lens| && n >= 1
  {
    var o := |Order(lens, n - 1)|;
    o + |Of(lens, i, n)| <= |work| && forall z :: o <= z < o + |Of(lens, i, n)| ==> work[z] == Of(lens, i, n)[z - o]
  }

  ghost predicate Placed(work: seq<int>, offs: seq<int>, lens: seq<int>, i: nat) {
    i <= |lens| && |offs| == MAXBITS + 1 &&
    (forall n :: 1 <= n <= MAXBITS ==> offs[n] == |Order(lens, n - 1)| + Count(lens, i, n)) &&
    forall n :: 1 <= n <= MAXBITS ==> PlacedOf(work, lens, i, n)
  }

  lemma {:induction false} OfGrows(lens: seq<int>, i: nat, i': nat, n: nat)
    requires i <= i' <= |lens|
    ensures Of(lens, i, n) <= Of(lens, i', n) && Count(lens, i, n) <= Count(lens, i', n)
    decreases i'
  {
    if i < i' { OfGrows(lens, i, i' - 1, n); }
  }

  /** The places of one length lie before those of a longer one. */
  lemma PlacesApart(lens: seq<int>, n: nat, n': nat)
    requires 1 <= n < n'
    ensures |Order(lens, n - 1)| + Count(lens, |lens|, n) <= |Order(lens, n' - 1)|
  {
    OrderLongest(lens, n, n' - 1);
  }

  lemma PlacedStart(work: seq<int>, offs: seq<int>, lens: seq<int>)
    requires |offs| == MAXBITS + 1 && (forall n :: 1 <= n <= MAXBITS ==> offs[n] == |Order(lens, n - 1)|) &&
      Total(lens) <= |work|
    ensures Placed(work, offs, lens, 0)
  {
    forall n | 1 <= n <= MAXBITS ensures PlacedOf(work, lens, 0, n) { OrderLongest(lens, n - 1, MAXBITS); }
  }

  lemma PlacedSkip(work: seq<int>, offs: seq<int>, lens: seq<int>, i: nat)
    requires Placed(work, offs, lens, i) && i < |lens| && lens[i] == 0
    ensures Placed(work, offs, lens, i + 1)
  {
    hide Order;
    var i' := i + 1;
    forall n | 1 <= n <= MAXBITS ensures PlacedOf(work, lens, i', n) {
      assert PlacedOf(work, lens, i, n);
      assert Of(lens, i + 1, n) == Of(lens, i, n);
    }
  }

  lemma PlaceOf(work: seq<int>, offs: seq<int>, lens: seq<int>, i: nat)
    requires Placed(work, offs, lens, i) && i < |lens| && 1 <= lens[i] <= MAXBITS && Total(lens) <= |work|
    ensures |offs| == MAXBITS + 1 && 0 <= offs[lens[i]] < |work| &&
      offs[lens[i]] == |Order(lens, lens[i] - 1)| + Count(lens, i, lens[i])
  {
    hide Count;
    hide Of;
    var n := lens[i];
    CountPositive(lens, i);
    UptoStep(lens, MAXBITS, n);
    OrderLongest(lens, n, MAXBITS);
  }

  /** A symbol put in its place is in none of the others. */
  lemma PlacedNext(work: seq<int>, lens: seq<int>, i: nat, at: nat, n: nat)
    requires i < |lens| && 1 <= lens[i] <= MAXBITS &&
      at == |Order(lens, lens[i] - 1)| + Count(lens, i, lens[i]) < |work|
    requires 1 <= n <= MAXBITS && PlacedOf(work, lens, i, n)
    ensures PlacedOf(work[at := i], lens, i + 1, n)
  {
    hide Order;
    var m: nat := lens[i];
    OfGrows(lens, i, i + 1, n);
    OfGrows(lens, i + 1, |lens|, n);
    OfGrows(lens, i + 1, |lens|, m);
    assert Count(lens, i + 1, m) == Count(lens, i, m) + 1;
    if n < m {
      PlacesApart(lens, n, m);
      assert Of(lens, i + 1, n) == Of(lens, i, n);
    } else if m < n {
      PlacesApart(lens, m, n);
      assert Of(lens, i + 1, n) == Of(lens, i, n);
    } else {
      assert Of(lens, i + 1, n) == Of(lens, i, n) + [i];
    }
  }

  lemma PlacedStep(work: seq<int>, offs: seq<int>, lens: seq<int>, i: nat)
    requires Placed(work, offs, lens, i) && i < |lens| && 1 <= lens[i] <= MAXBITS && Total(lens) <= |work|
    ensures |offs| == MAXBITS + 1 && 0 <= offs[lens[i]] < |work|
    ensures Placed(work[offs[lens[i]] := i], offs[lens[i] := offs[lens[i]] + 1], lens, i + 1)
  {
    hide Order;
    hide PlacedOf;
    hide Of;
    PlaceOf(work, offs, lens, i);
    var work', i' := work[offs[lens[i]] := i], i + 1;
    forall n | 1 <= n <= MAXBITS ensures PlacedOf(work', lens, i', n) {
      PlacedNext(work, lens, i, offs[lens[i]], n);
    }
  }

  lemma PlacedEach(work: seq<int>, offs: seq<int>, lens: seq<int>, k: nat)
    requires Placed(work, offs, lens, |lens|) && k < Total(lens)
    ensures k < |work| && work[k] == Order(lens, MAXBITS)[k]
  {
    hide *;
    TotalIs(lens);
    var n, j := Standing(lens, MAXBITS, k);
    StandsFor(lens, MAXBITS, k, n, j);
    StandsParts(lens, MAXBITS, k, n, j);
    PlacedParts(work, offs, lens, |lens|, n);
    PlacedAt(work, lens, n, j);
  }

  lemma TotalIs(lens: seq<int>)
    ensures Total(lens) == |Order(lens, MAXBITS)|
  {
  }

  lemma PlacedParts(work: seq<int>, offs: seq<int>, lens: seq<int>, i: nat, n: nat)
    requires Placed(work, offs, lens, i) && 1 <= n <= MAXBITS
    ensures i <= |lens| && PlacedOf(work, lens, i, n)
  {
    hide PlacedOf;
  }

  lemma AllPlaced(work: seq<int>, offs: seq<int>, lens: seq<int>)
    requires Placed(work, offs, lens, |lens|) && Total(lens) <= |work|
    ensures work[..Total(lens)] == Order(lens, MAXBITS)
  {
    hide *;
    TotalIs(lens);
    forall k | 0 <= k < Total(lens) ensures work[k] == Order(lens, MAXBITS)[k] { PlacedEach(work, offs, lens, k); }
  }

  lemma PlacedAt(work: seq<int>, lens: seq<int>, n: nat, j: nat)
    requires n >= 1 && PlacedOf(work, lens, |lens|, n) && j < Count(lens, |lens|, n)
    ensures |Order(lens, n - 1)| + j < |work| && work[|Order(lens, n - 1)| + j] == Of(lens, |lens|, n)[j]
  {
    hide Order;
    var z := |Order(lens, n - 1)| + j;
    assert z - |Order(lens, n - 1)| == j;
  }

  /** Generate offsets into the symbol table for each length. */
  method MakeOffsets(count: array<int>, ghost lens: seq<int>) returns (offs: array<int>)
    requires count.Length == MAXBITS + 1 && forall n :: 0 <= n <= MAXBITS ==> count[n] == Count(lens, |lens|, n)
    ensures fresh(offs) && offs.Length == MAXBITS + 1 && forall n ::
      1 <= n <= MAXBITS ==> offs[n] == |Order(lens, n - 1)|
  {
    offs := new int[MAXBITS + 1];
    offs[1] := 0;
    var len := 1;
    while len < MAXBITS
      invariant 1 <= len <= MAXBITS && forall n :: 1 <= n <= len ==> offs[n] == |Order(lens, n - 1)|
    {
      UptoStep(lens, MAXBITS, len);
      offs[len + 1] := offs[len] + count[len];
      len := len + 1;
    }
  }

  lemma LengthsBound()
    ensures MAXBITS == 15
  {
  }

  /** Sort symbols by length, by symbol order within each length. */
  method SortSymbols(lens: seq<int>, count: array<int>, work: array<int>)
    requires (forall i :: 0 <= i < |lens| ==> 0 <= lens[i] <= MAXBITS) && Total(lens) <= work.Length && work != count
    requires count.Length == MAXBITS + 1 && forall n :: 0 <= n <= MAXBITS ==> count[n] == Count(lens, |lens|, n)
    modifies work
    ensures work[..Total(lens)] == Order(lens, MAXBITS)
  {
    hide *;
    LengthsBound();
    var offs := MakeOffsets(count, lens);
    PlacedStart(work[..], offs[..], lens);
    var sym := 0;
    while sym < |lens|
      invariant 0 <= sym <= |lens| && Placed(work[..], offs[..], lens, sym)
    {
      if lens[sym] != 0 {
        PlacedStep(work[..], offs[..], lens, sym);
        work[offs[lens[sym]]] := sym;
        offs[lens[sym]] := offs[lens[sym]] + 1;
      } else {
        PlacedSkip(work[..], offs[..], lens, sym);
      }
      sym := sym + 1;
    }
    AllPlaced(work[..], offs[..], lens);
    assert work[..][..Total(lens)] == work[..Total(lens)];
  }

  /* ---------- all codes ---------- */

  /** The entry for a symbol, from the tables of bases and extra bits. */
  method MakeEntry(typ: CodeType, s: nat, bits: int) returns (here: Entry)
    requires s < Symbols(typ)
    ensures here == EntryOf(typ, s, bits)
  {
    var end := match typ case CODES => 19 case LENS => 256 case DISTS => -1;
    if s < end {
      here := Entry(0, bits, s);
    } else if s > end {
      here := if typ.LENS? then Entry(LEXT[s - 257], bits, LBASE[s - 257]) else Entry(DEXT[s], bits, DBASE[s]);
    } else {
      here := Entry(32 + 64, bits, 0);
    }
  }

  /** The backward increment gives the next code, also when it is longer. */
  lemma HuffNext(lens: seq<int>, k: nat)
    requires k + 1 < Total(lens) && Fit(lens)
    ensures CodeValue(lens, k) < Pow2(Size(lens, k)) && RevNext(CodeValue(lens, k), Size(lens, k)) == Huff(lens, k + 1)
  {
    hide *;
    ValueFits(lens, k);
    NextFrom(lens, k);
    Parts(lens, k);
    Parts(lens, k + 1);
    LengthsBound();
    var n, n', c, c' := Size(lens, k), Size(lens, k + 1), CodeValue(lens, k), CodeValue(lens, k + 1);
    RevNextIs(c, n);
    Pow2Sum(n' - n, MAXBITS - n');
    var q, p := Pow2(n' - n), Pow2(MAXBITS - n');
    Grouped(c, q, p);
    SameFactor(c', (c + 1) * q, p);
    RevZeros(c + 1, n, n' - n);
  }

  lemma SameFactor(a: nat, b: nat, p: nat)
    requires a * p == b * p && p >= 1
    ensures a == b
  {
    CancelFactor(a, b, p);
    CancelFactor(b, a, p);
  }

  lemma Counted(count: seq<int>, lens: seq<int>, k: nat)
    requires Counts(count, lens, k) && k < Total(lens)
    ensures |count| == 16 && 1 <= Size(lens, k) <= 15 &&
      Counts(count[Size(lens, k) := count[Size(lens, k)] - 1], lens, k + 1)
  {
    hide Order;
  }

  lemma CountsStart(count: seq<int>, lens: seq<int>)
    requires |count| == MAXBITS + 1 && Total(lens) > 0 && forall n ::
      0 <= n <= MAXBITS ==> count[n] == Count(lens, |lens|, n)
    ensures Counts(count, lens, 0)
  {
    hide Order;
    hide Count;
    hide ToCome;
    forall n | 1 <= n <= MAXBITS ensures count[n] == ToCome(lens, MAXBITS, 0, n) { AllToCome(lens, MAXBITS, n); }
  }

  /** What the count of the length just entered says about the next code. */
  lemma AfterCount(count: seq<int>, lens: seq<int>, k: nat, max: nat, longest: nat)
    requires k < Total(lens) && Counts(count, lens, k + 1) && Longest(lens, max) && longest < Total(lens) &&
      Size(lens, longest) == max
    ensures |count| == 16 && 1 <= Size(lens, k) <= 15 && Size(lens, k) <= max
    ensures count[Size(lens, k)] == 0 && Size(lens, k) == max ==> k + 1 == Total(lens)
    ensures count[Size(lens, k)] == 0 && Size(lens, k) != max ==> k + 1 < Total(lens)
    ensures count[Size(lens, k)] != 0 ==> k + 1 < Total(lens) && Size(lens, k + 1) == Size(lens, k)
  {
    hide Order;
    hide Size;
    SizeBound(lens, k);
    TotalIs(lens);
    var len := Size(lens, k);
    ToComeEnd(lens, len);
    if k + 1 < Total(lens) {
      NextFrom(lens, k);
      if count[len] != 0 { NextSize(lens, k + 1, len); }
      if len == max { ToComeSelf(lens, k + 1); }
    } else {
      SizesGrow(lens, longest, k);
    }
  }

  lemma ToComeEnd(lens: seq<int>, n: nat)
    ensures ToCome(lens, MAXBITS, |Order(lens, MAXBITS)|, n) == 0
  {
  }

  lemma ToComeSelf(lens: seq<int>, k: nat)
    requires k < Total(lens)
    ensures ToCome(lens, MAXBITS, k, Size(lens, k)) > 0
  {
  }

  lemma NextSize(lens: seq<int>, k: nat, n: nat)
    requires k < Total(lens) && Size(lens, k) >= n && ToCome(lens, MAXBITS, k, n) > 0 && 1 <= n <= MAXBITS
    ensures Size(lens, k) == n
  {
    NextLength(lens, MAXBITS, k, n);
  }

  lemma SymbolOf(lens: seq<int>, typ: CodeType, work: seq<int>, k: nat)
    requires AllLens(lens, typ) && Total(lens) <= |work| && work[..Total(lens)] == Order(lens, MAXBITS) &&
      k < Total(lens)
    ensures 0 <= work[k] < |lens| && work[k] < Symbols(typ) && lens[work[k]] == Size(lens, k)
    ensures forall b :: EntryOf(typ, work[k], b) == Leaf(lens, typ, k, b)
  {
    hide Order;
    hide EntryOf;
    SymbolSmall(lens, typ, k);
    StandingLen(lens, MAXBITS, k);
    assert work[k] == work[..Total(lens)][k];
  }

  lemma HuffParts(lens: seq<int>, k: nat, root: nat)
    requires k < Total(lens) && Fit(lens)
    ensures Huff(lens, k) < Pow2(Size(lens, k)) && CodeValue(lens, k) < Pow2(Size(lens, k)) &&
      Huff(lens, k) == Rev(CodeValue(lens, k), Size(lens, k))
    ensures 1 <= Size(lens, k) <= 15 &&
      (Size(lens, k) > root ==> High(Huff(lens, k), root) < Pow2(Size(lens, k) - root))
  {
    hide *;
    LengthsBound();
    ValueFits(lens, k);
    Parts(lens, k);
    if Size(lens, k) > root { Shifted(Huff(lens, k), root, Size(lens, k)); }
  }

  lemma HighZero(h: nat)
    ensures High(h, 0) == h
  {
  }

  /** Enter one code: create its entry and replicate it. */
  method EnterCode(typ: CodeType, table: array<Entry>, start: nat, s: nat, len: nat, huff: nat, next: nat, curr: nat,
      drop: nat,
                   ghost lens: seq<int>, ghost root: nat, ghost used: nat, ghost k: nat, ghost low: int)
    requires start <= table.Length && Ready(table[start..], typ, lens, root, used, k, low, next, curr, drop)
    requires s < Symbols(typ) && k < Total(lens) && AllLens(lens, typ) && len == Size(lens, k) && huff == Huff(lens, k)
    requires forall b :: EntryOf(typ, s, b) == Leaf(lens, typ, k, b)
    modifies table
    ensures Over(table[start..], typ, lens, root, used, k, low, next, curr, drop) &&
      table[..start] == old(table[..start])
  {
    hide *;
    ghost var T := table[start..];
    ReadyParts(T, typ, lens, root, used, k, low, next, curr, drop);
    UsedParts(T, lens, root, used, Size(lens, k) > root, low, next, curr, drop);
    HuffParts(lens, k, root);
    HighZero(huff);
    if len > root {
      LongParts(T, lens, root, used, low, next, curr, drop);
      RoomyAt(lens, root, low, curr, k);
    } else {
      ShortParts(T, lens, root, used, low, next, curr, drop);
    }
    var here := MakeEntry(typ, s, len - drop);
    Replicate(table, start, next, len - drop, High(huff, drop), curr, here);
    if len > root {
      PutLong(T, table[start..], typ, lens, root, used, k, low, next, curr);
    } else {
      PutShort(T, table[start..], typ, lens, root, used, k);
    }
  }

  lemma RoomyAt(lens: seq<int>, root: nat, low: int, curr: nat, k: nat)
    requires Roomy(lens, root, low, curr) && k < Total(lens) && Size(lens, k) > root && Low(Huff(lens, k), root) == low
    ensures Size(lens, k) <= root + curr
  {
    hide Size;
    hide Huff;
    hide Total;
  }

  /** The space the caller provides. */
  function Room(typ: CodeType): (n: nat) {
    match typ
    case CODES => 128
    case LENS => ENOUGH_LENS
    case DISTS => ENOUGH_DISTS
  }

  /** The check of the space used so far. */
  predicate TooMuch(typ: CodeType, used: nat) {
    (typ.LENS? && used >= ENOUGH_LENS) || (typ.DISTS? && used >= ENOUGH_DISTS)
  }

  lemma LongestAt(lens: seq<int>, max: nat, k: nat)
    requires Longest(lens, max) && k < Total(lens)
    ensures Size(lens, k) <= max
  {
    hide Size;
    hide Total;
  }

  lemma RoomFor(typ: CodeType, used: nat)
    requires !TooMuch(typ, used) && (typ.CODES? ==> used <= 128)
    ensures used <= Room(typ)
  {
  }

  lemma PowerSmall(n: nat)
    requires n <= 7
    ensures Pow2(n) <= 128
  {
    Pow2Monotone(n, 7);
    assert Pow2(4) == 16;
    assert Pow2(7) == 128;
  }

  lemma {:induction false} RevZero(n: nat)
    ensures Rev(0, n) == 0
    decreases n
  {
    if n > 0 { RevZero(n - 1); assert 0 % 2 * Pow2(n - 1) == 0; }
  }

  lemma FirstHuff(lens: seq<int>)
    requires Total(lens) > 0
    ensures Huff(lens, 0) == 0
  {
    hide *;
    TotalIs(lens);
    StartsAtZero(lens, MAXBITS);
    Parts(lens, 0);
    FromIs(lens, 0);
    if CodeValue(lens, 0) > 0 { MulAtLeast(CodeValue(lens, 0), Pow2(MAXBITS - Size(lens, 0))); }
    RevZero(Size(lens, 0));
  }

  lemma FromIs(lens: seq<int>, k: nat)
    requires k < Total(lens)
    ensures From(lens, k) == Start(lens, MAXBITS, k) && To(lens, k) == CodeOrder.End(lens, MAXBITS, k)
  {
  }

  lemma LastIntro(T: seq<Entry>, typ: CodeType, lens: seq<int>, root: nat, used: nat, max: nat, huff: nat, k: nat)
    requires AllLens(lens, typ) && k + 1 == Total(lens) && Fit(lens) && Decodes(T, typ, lens, root, used) &&
      used <= |T| && Pow2(root) <= used
    requires Size(lens, k) == max && CodeValue(lens, k) < Pow2(max) && huff == RevNext(CodeValue(lens, k), max)
    ensures LastOver(T, typ, lens, root, used, max, huff)
  {
    hide Pow2;
    hide Size;
    hide Decodes;
    hide AllLens;
    hide Fit;
    hide RevNext;
  }

  /** Every code is entered, then the last is known to be. */
  ghost predicate LastOver(T: seq<Entry>, typ: CodeType, lens: seq<int>, root: nat, used: nat, max: nat, huff: nat) {
    AllLens(lens, typ) && Total(lens) > 0 && Fit(lens) && Decodes(T, typ, lens, root, used) && used <= |T| &&
    Pow2(root) <= used &&
    var k := Total(lens) - 1;
    Size(lens, k) == max && CodeValue(lens, k) < Pow2(max) && huff == RevNext(CodeValue(lens, k), max)
  }

  /** Process all codes and make table entries. */
  method EnterAll(typ: CodeType, lens: seq<int>, table: array<Entry>, start: nat, root: nat, min: nat, max: nat,
      count: array<int>, work: array<int>)
    returns (ret: int, used: nat, huff: nat)
    requires AllLens(lens, typ) && Fit(lens) && Total(lens) > 0 && Size(lens, 0) == min && Longest(lens, max)
    requires exists k :: 0 <= k < Total(lens) && Size(lens, k) == max
    requires 1 <= root <= max <= MAXBITS && min <= root && (typ.CODES? ==> root == max <= 7) &&
      start + Room(typ) <= table.Length
    requires Counts(count[..], lens, 0) && Total(lens) <= work.Length && work[..Total(lens)] == Order(lens, MAXBITS) &&
      count != work && (Taken(lens) == Pow2(MAXBITS) || max == 1)
    modifies table, count
    ensures ret == 0 || ret == 1
    ensures table[..start] == old(table[..start]) &&
      (ret == 0 ==> LastOver(table[start..], typ, lens, root, used, max, huff) && used <= Room(typ))
    ensures ret == 1 <==> NeedsMore(lens, typ, root)
    ensures ret == 0 ==> used == Need(lens, root, Total(lens))
  {
    hide *;
    LengthsBound();
    ghost var longest: nat :| longest < Total(lens) && Size(lens, longest) == max;
    SizeBound(lens, 0);
    FirstHuff(lens);
    huff := 0;
    var sym: nat, len := 0, min;
    var next: nat, curr, drop: nat, low := 0, root, 0, -1;
    used := Pow2(root);
    if typ.CODES? { PowerSmall(root); }
    NeedNext(lens, root, 0);
    OpensIs(lens, root, 0);
    if TooMuch(typ, used) {
      TooMuchGrows(typ, lens, root, 0);
      return 1, used, huff;
    }
    RoomFor(typ, used);
    ReadyFirst(table[start..], typ, lens, root);
    ghost var order := work[..];
    var going := true;
    while going
      invariant table[..start] == old(table[..start]) && used <= Room(typ) && work[..] == order
      invariant going ==> sym < Total(lens) && Ready(table[start..], typ, lens, root, used, sym, low, next, curr, drop)
      invariant going ==> huff == Huff(lens, sym) && len == Size(lens, sym) && Counts(count[..], lens, sym)
      invariant !going ==> LastOver(table[start..], typ, lens, root, used, max, huff) && sym == Total(lens)
      invariant used == Need(lens, root, if going then sym + 1 else sym) && !TooMuch(typ, used)
      decreases going, Total(lens) - sym
    {
      assert work[..][..Total(lens)] == work[..Total(lens)];
      SymbolOf(lens, typ, work[..], sym);
      ghost var k := sym;
      ghost var c := count[..];
      EnterCode(typ, table, start, work[..][sym], len, huff, next, curr, drop, lens, root, used, k, low);
      ghost var T := table[start..];
      ghost var used0, low0, next0, curr0, drop0 := used, low, next, curr, drop;
      OverParts(T, typ, lens, root, used, k, low, next, curr, drop);
      UsedParts(T, lens, root, used, Size(lens, k) > root, low, next, curr, drop);
      HuffParts(lens, k, root);
      huff := Increment(huff, len, CodeValue(lens, k));
      sym := sym + 1;
      assert count[..] == c;
      Counted(c, lens, k);
      count[len] := count[len] - 1;
      assert count[..] == c[len := c[len] - 1];
      assert table[start..] == T;
      AfterCount(count[..], lens, k, max, longest);
      if count[len] == 0 && len == max {
        AllEntered(T, typ, lens, root, used, k, low, next, curr, drop);
        LastIntro(T, typ, lens, root, used, max, huff, k);
        going := false;
      } else {
        SymbolOf(lens, typ, work[..], sym);
        HuffNext(lens, k);
        if count[len] == 0 { len := lens[work[..][sym]]; }
        NeedNext(lens, root, sym);
        OpensIs(lens, root, sym);
        if Size(lens, k) <= root { ShortParts(T, lens, root, used0, low0, next0, curr0, drop0); }
        LowIs(huff, root);
        if len > root && Low(huff, root) != low {
          drop := root;
          next := next + Pow2(curr);
          NextFrom(lens, k);
          BeginsShare(lens, root, k);
          LongestAt(lens, max, sym);
          curr := SizeTable(count, len, root, max, lens, sym);
          used := used + Pow2(curr);
          if TooMuch(typ, used) {
            TooMuchGrows(typ, lens, root, sym + 1);
            return 1, used, huff;
          }
          RoomFor(typ, used);
          low := Low(huff, root);
          NewTable(T, typ, lens, root, used0, k, low0, next0, curr0, drop0, low, curr);
          table[start + low] := Entry(curr, root, next);
          assert table[start..] == T[low := Entry(curr, root, next)];
        } else {
          Advance(T, typ, lens, root, used, k, low, next, curr, drop);
        }
      }
    }
    EnoughRoom(typ, lens, root);
    ret := 0;
  }

  /* ---------- inflate_table ---------- */

  ghost function Taken(lens: seq<int>): (w: nat) {
    Upto(lens, MAXBITS, MAXBITS)
  }

  /** Sets of lengths that are turned away: over-subscribed, or incomplete with more than one bit. */
  ghost predicate Refused(lens: seq<int>, typ: CodeType) {
    Taken(lens) > Pow2(MAXBITS) ||
    (Taken(lens) < Pow2(MAXBITS) && (typ.CODES? || exists i :: 0 <= i < |lens| && lens[i] > 1))
  }

  lemma LongestSymbol(lens: seq<int>, max: nat)
    requires 1 <= max <= MAXBITS && Count(lens, |lens|, max) > 0 && forall n ::
      max < n <= MAXBITS ==> Count(lens, |lens|, n) == 0
    requires forall i :: 0 <= i < |lens| ==> 0 <= lens[i] <= MAXBITS
    ensures (exists i :: 0 <= i < |lens| && lens[i] > 1) <==> max != 1
    ensures Total(lens) > 0 && exists k :: 0 <= k < Total(lens) && Size(lens, k) == max
  {
    hide Size;
    hide Order;
    hide Count;
    CountSome(lens, |lens|, max);
    var s: nat :| s < |lens| && lens[s] == max;
    if i :| 0 <= i < |lens| && lens[i] > 1 { CountedSymbol(lens, i); }
    var k := OrderHas(lens, MAXBITS, s);
    SizeIs(lens, k, s);
  }

  lemma CountedSymbol(lens: seq<int>, i: nat)
    requires i < |lens|
    ensures Count(lens, |lens|, lens[i]) > 0
  {
    CountPositive(lens, i);
  }

  lemma FitIs(lens: seq<int>, typ: CodeType)
    requires AllLens(lens, typ)
    ensures Fit(lens) <==> Taken(lens) <= Pow2(MAXBITS)
  {
  }

  /** The end of the last code: the space is used up, or there is a single code of one bit. */
  lemma LastHuff(lens: seq<int>, max: nat)
    requires Total(lens) > 0 && Fit(lens) && Size(lens, Total(lens) - 1) == max &&
      CodeValue(lens, Total(lens) - 1) < Pow2(max)
    requires Taken(lens) < Pow2(MAXBITS) ==> max == 1
    ensures Taken(lens) == Pow2(MAXBITS) ==> RevNext(CodeValue(lens, Total(lens) - 1), max) == 0
    ensures Taken(lens) < Pow2(MAXBITS) ==> RevNext(CodeValue(lens, Total(lens) - 1), max) == 1 && Total(lens) == 1
  {
    hide *;
    LengthsBound();
    var k := Total(lens) - 1;
    TotalIs(lens);
    Parts(lens, k);
    FromIs(lens, k);
    EndsAtSpace(lens, MAXBITS, k);
    TakenIs(lens);
    var c, p := CodeValue(lens, k), Pow2(MAXBITS - max);
    Distribute2(c, 1, p);
    Pow2Sum(max, MAXBITS - max);
    if Taken(lens) == Pow2(MAXBITS) {
      SameFactor(c + 1, Pow2(max), p);
      NextNone(c, max);
    } else {
      if c == 1 { assert (c + 1) * p == 2 * p; }
      OneBit();
      if k > 0 {
        SizesGrow(lens, k - 1, k);
        SizeBound(lens, k - 1);
        Parts(lens, k - 1);
        NextFrom(lens, k - 1);
        MulNonNegative(CodeValue(lens, k - 1), Pow2(MAXBITS - 1));
      }
    }
  }

  lemma OneBit()
    ensures Pow2(1) == 2 && RevNext(0, 1) == 1 && Pow2(14) > 0
  {
    assert Rev(1, 1) == 1 % 2 * Pow2(0) + Rev(0, 0);
  }

  lemma NextNone(c: nat, n: nat)
    requires c + 1 == Pow2(n)
    ensures RevNext(c, n) == 0
  {
  }

  lemma TakenIs(lens: seq<int>)
    ensures Taken(lens) == Upto(lens, MAXBITS, MAXBITS)
  {
  }

  /** The slot for the other bit is not the code's. */
  lemma MarkInvalid(T: seq<Entry>, typ: CodeType, lens: seq<int>, used: nat)
    requires Decodes(T, typ, lens, 1, used) && Total(lens) == 1 && Size(lens, 0) == 1 && Huff(lens, 0) == 0 && 2 <= |T|
    ensures Decodes(T[1 := Invalid(1)], typ, lens, 1, used)
  {
    hide Size;
    hide Huff;
    hide Total;
    hide Leaf;
    var T' := T[1 := Invalid(1)];
    assert Found(T, typ, lens, 1, used, 0);
    assert Filled(T, 0, Pow2(1), 1, 0, Leaf(lens, typ, 0, 1));
    assert Low(1, 1) == 1;
    assert Filled(T', 0, Pow2(1), 1, 0, Leaf(lens, typ, 0, 1));
  }

  /** inflate_table. The tables are in the slots from start on. */
  method InflateTable(typ: CodeType, lens: seq<int>, table: array<Entry>, start: nat, bits: nat, work: array<int>)
    returns (ret: int, root: nat, used: nat)
    requires AllLens(lens, typ) && |lens| <= work.Length && start + Room(typ) <= table.Length
    requires typ.CODES? ==> bits >= 7 && forall i :: 0 <= i < |lens| ==> lens[i] <= 7
    modifies table, work
    ensures table[..start] == old(table[..start]) && (ret == 0 || ret == 1 || ret == -1)
    ensures Total(lens) == 0 ==> ret == 0 && root == 1 && used == 2 && table[start] == table[start + 1] == Invalid(1)
    ensures Total(lens) > 0 ==> (ret == -1 <==> Refused(lens, typ))
    ensures Total(lens) > 0 && !Refused(lens, typ) ==> (ret == 1 <==> Oversized(lens, typ, bits))
    ensures Total(lens) > 0 && ret == 0 ==> RootIs(lens, bits, root) && used == Need(lens, root, Total(lens))
    ensures Total(lens) > 0 && ret == 0 ==>
      Decodes(table[start..], typ, lens, root, used) && Pow2(root) <= used <= Room(typ) &&
      (bits >= 1 ==> 1 <= root <= 15)
    ensures Total(lens) > 0 && ret == 0 && Taken(lens) < Pow2(MAXBITS) ==> root == 1 && table[start + 1] == Invalid(1)
  {
    hide *;
    LengthsBound();
    RoomTwo(typ);
    AllLensParts(lens, typ);
    var count := CountLengths(lens);
    root, used := bits, 0;
    var max := FindMax(count, lens);
    if root > max { root := max; }
    if max == 0 {
      NoCodes(lens);
      table[start] := Invalid(1);
      table[start + 1] := Invalid(1);
      root, used, ret := 1, 2, 0;
      return;
    }
    var min := FindMin(count, max);
    if root < min { root := min; }
    RootFound(lens, bits, root, min, max);
    LongestSymbol(lens, max);
    Extremes(lens, min, max);
    var left := CheckLengths(count, lens);
    TakenIs(lens);
    FitIs(lens, typ);
    RefusedIs(lens, typ);
    if left < 0 { return -1, root, used; }
    if left > 0 && (typ.CODES? || max != 1) { return -1, root, used; }
    OversizedIs(lens, typ, bits, root);
    TotalSmall(lens);
    if typ.CODES? { ShortCodes(lens, max); }
    ghost var counts := count[..];
    SortSymbols(lens, count, work);
    CountsStart(count[..], lens);
    var huff;
    ret, used, huff := EnterAll(typ, lens, table, start, root, min, max, count, work);
    if ret == 0 {
      LastParts(table[start..], typ, lens, root, used, max, huff);
      LastHuff(lens, max);
      if huff != 0 {
        FirstHuff(lens);
        MarkInvalid(table[start..], typ, lens, used);
        ghost var T := table[start..];
        table[start + huff] := Invalid(1);
        assert table[start..] == T[1 := Invalid(1)];
      }
    }
  }

  lemma RootFound(lens: seq<int>, bits: nat, root: nat, min: nat, max: nat)
    requires 1 <= min <= max <= MAXBITS && root == (if bits > max then max else if bits < min then min else bits)
    requires Count(lens, |lens|, min) > 0 && Count(lens, |lens|, max) > 0 && forall i ::
      0 <= i < |lens| ==> 0 <= lens[i] <= MAXBITS
    requires (forall n :: 1 <= n < min ==> Count(lens, |lens|, n) == 0) && forall n ::
      max < n <= MAXBITS ==> Count(lens, |lens|, n) == 0
    ensures RootIs(lens, bits, root)
  {
    hide Count;
    CountSome(lens, |lens|, min);
    CountSome(lens, |lens|, max);
    forall i | 0 <= i < |lens| ensures lens[i] <= max && (lens[i] > 0 ==> lens[i] >= min) { CountedSymbol(lens, i); }
  }

  lemma RoomTwo(typ: CodeType)
    ensures Room(typ) >= 2
  {
  }

  lemma AllLensParts(lens: seq<int>, typ: CodeType)
    requires AllLens(lens, typ)
    ensures forall i :: 0 <= i < |lens| ==> 0 <= lens[i] <= MAXBITS
  {
  }

  lemma RefusedIs(lens: seq<int>, typ: CodeType)
    ensures Refused(lens, typ) <==>
      Taken(lens) > Pow2(MAXBITS) ||
      (Taken(lens) < Pow2(MAXBITS) && (typ.CODES? || exists i :: 0 <= i < |lens| && lens[i] > 1))
  {
    hide Taken;
    hide Pow2;
  }

  /** There are no more codes than symbols. */
  lemma TotalSmall(lens: seq<int>)
    ensures Total(lens) <= |lens|
  {
    OrderSmall(lens, MAXBITS);
  }

  lemma {:induction false} OrderSmall(lens: seq<int>, n: nat)
    ensures |Order(lens, n)| <= CountUpto(lens, |lens|, n) <= |lens|
    decreases n
  {
    if n > 0 {
      OrderSmall(lens, n - 1);
      CountUptoStep(lens, |lens|, n);
    }
  }

  /** How many of the first i lengths are from 1 to n. */
  ghost function CountUpto(lens: seq<int>, i: nat, n: nat): (c: nat)
    requires i <= |lens|
    ensures c <= i
  {
    if i == 0 then 0 else CountUpto(lens, i - 1, n) + (if 1 <= lens[i - 1] <= n then 1 else 0)
  }

  lemma {:induction false} CountUptoStep(lens: seq<int>, i: nat, n: nat)
    requires i <= |lens| && n >= 1
    ensures CountUpto(lens, i, n) == CountUpto(lens, i, n - 1) + Count(lens, i, n)
    decreases i
  {
    if i > 0 { CountUptoStep(lens, i - 1, n); }
  }

  /** The lengths of the code length code are at most 7. */
  lemma ShortCodes(lens: seq<int>, max: nat)
    requires (forall i :: 0 <= i < |lens| ==> lens[i] <= 7) && Total(lens) > 0 && exists k ::
      0 <= k < Total(lens) && Size(lens, k) == max
    ensures max <= 7
  {
    var k: nat :| k < Total(lens) && Size(lens, k) == max;
    StandingLen(lens, MAXBITS, k);
  }

  lemma LastParts(T: seq<Entry>, typ: CodeType, lens: seq<int>, root: nat, used: nat, max: nat, huff: nat)
    requires LastOver(T, typ, lens, root, used, max, huff)
    ensures AllLens(lens, typ) && Total(lens) > 0 && Fit(lens) && Decodes(T, typ, lens, root, used) && used <= |T| &&
      Pow2(root) <= used
    ensures var k := Total(lens) - 1;
      Size(lens, k) == max && CodeValue(lens, k) < Pow2(max) && huff == RevNext(CodeValue(lens, k), max)
  {
    hide Pow2;
    hide Size;
    hide Decodes;
    hide AllLens;
    hide Fit;
    hide RevNext;
  }

  /* ---------- what the tables are for ---------- */

  /** The bits of hold start with the code of symbol s (section 3.2.2 of RFC 1951). */
  ghost predicate StartsWith(lens: seq<int>, s: nat, hold: nat) {
    s < |lens| && lens[s] > 0 && Low(hold, lens[s]) == Rev(Code(lens, s), lens[s])
  }

  /** The tables of a successful call decode: a bit buffer that starts with the code of s is looked up
      as s and exactly the length of its code. */
  lemma TablesDecode(T: seq<Entry>, typ: CodeType, lens: seq<int>, root: nat, used: nat, s: nat, hold: nat)
    requires Decodes(T, typ, lens, root, used) && Pow2(root) <= |T| && s < |lens| && s < Symbols(typ) &&
      lens[s] <= MAXBITS && StartsWith(lens, s, hold)
    ensures var e := T[Low(hold, root)]; 1 <= e.op <= 15 ==> 0 <= e.bits && 0 <= e.val && e.val + Pow2(e.op) <= |T|
    ensures var r := Lookup(T, root, hold); r.bits == lens[s] && r.here == EntryOf(typ, s, r.here.bits)
  {
    hide *;
    HasCode(lens, s, hold);
    var k := OrderHas(lens, MAXBITS, s);
    TotalIs(lens);
    SizeIs(lens, k, s);
    CodeAt(lens, typ, k, s, hold);
    DecodesAt(T, typ, lens, root, used, k);
    LookupFinds(T, typ, lens, root, used, k, hold);
    LeafIs(lens, typ, k, s, Lookup(T, root, hold).here.bits);
  }

  lemma HasCode(lens: seq<int>, s: nat, hold: nat)
    requires StartsWith(lens, s, hold)
    ensures s < |lens| && lens[s] > 0
  {
  }

  lemma CodeAt(lens: seq<int>, typ: CodeType, k: nat, s: nat, hold: nat)
    requires k < Total(lens) && k < |Order(lens, MAXBITS)| && Order(lens, MAXBITS)[k] == s && s < |lens| &&
      lens[s] > 0 && Size(lens, k) == lens[s]
    ensures StartsWith(lens, s, hold) <==> Low(hold, Size(lens, k)) == Huff(lens, k)
  {
    hide Low;
    hide Rev;
    hide Code;
    hide Order;
  }

  lemma DecodesAt(T: seq<Entry>, typ: CodeType, lens: seq<int>, root: nat, used: nat, k: nat)
    requires Decodes(T, typ, lens, root, used) && k < Total(lens)
    ensures AllLens(lens, typ) && Found(T, typ, lens, root, used, k)
  {
    hide Found;
  }

  lemma LeafIs(lens: seq<int>, typ: CodeType, k: nat, s: nat, b: int)
    requires k < Total(lens) && AllLens(lens, typ) && k < |Order(lens, MAXBITS)| && Order(lens, MAXBITS)[k] == s &&
      s < Symbols(typ)
    ensures Leaf(lens, typ, k, b) == EntryOf(typ, s, b)
  {
  }

  /** With a complete set of lengths every bit buffer starts with the code of some symbol, so every
      slot a buffer can reach has been filled. */
  lemma EveryBufferDecodes(lens: seq<int>, typ: CodeType, hold: nat) returns (s: nat)
    requires AllLens(lens, typ) && Taken(lens) == Pow2(MAXBITS) && Total(lens) > 0
    ensures StartsWith(lens, s, hold) && s < Symbols(typ) && lens[s] <= MAXBITS
  {
    hide *;
    TotalIs(lens);
    CompleteIs(lens, typ);
    var k := SomeCode(lens, hold);
    StandingLen(lens, MAXBITS, k);
    SymbolSmall(lens, typ, k);
    s := Order(lens, MAXBITS)[k];
    SizeIs(lens, k, s);
    CodeAt(lens, typ, k, s, hold);
    SizeBound(lens, k);
  }

  lemma CompleteIs(lens: seq<int>, typ: CodeType)
    requires AllLens(lens, typ) && Taken(lens) == Pow2(MAXBITS)
    ensures Complete(lens, MAXBITS)
  {
  }
}
