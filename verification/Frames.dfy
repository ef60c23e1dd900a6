/**
 Arithmetic of power-of-two page blocks. `Head(p, x)` is the first page of the block of order `x`
 that contains page `p`; two such blocks are nested or disjoint, which is all the allocator needs.
 */
module Frames {

  const MAX_ORDER: nat := 10

  function Pow2(x: nat): (r: nat)
    ensures r >= 1
  {
    if x == 0 then 1 else 2 * Pow2(x - 1)
  }

  function Head(p: nat, x: nat): nat
    decreases x
  {
    if x == 0 then p else 2 * Head(p / 2, x - 1)
  }

  predicate Aligned(p: nat, x: nat) {
    Head(p, x) == p
  }

  /** `i` with bit `x` inverted: the exclusive-or of `get_buddy`. */
  function Buddy(i: nat, x: nat): nat
    decreases x
  {
    if x == 0 then (if i % 2 == 0 then i + 1 else i - 1) else 2 * Buddy(i / 2, x - 1) + i % 2
  }

  lemma {:induction false} HeadBounds(p: nat, x: nat)
    ensures Head(p, x) <= p < Head(p, x) + Pow2(x)
    decreases x
  {
    if x > 0 { HeadBounds(p / 2, x - 1); }
  }

  /** Nested or disjoint: the larger block around a page is the larger block around its smaller block. */
  lemma {:induction false} HeadOfHead(p: nat, x: nat, y: nat)
    requires x <= y
    ensures Head(Head(p, x), y) == Head(p, y)
    decreases x
  {
    if x > 0 { HeadOfHead(p / 2, x - 1, y - 1); }
  }

  /** The pages of an aligned block are the pages whose head it is. */
  lemma {:induction false} HeadInRange(p: nat, h: nat, x: nat)
    requires Aligned(h, x)
    ensures h <= p < h + Pow2(x) <==> Head(p, x) == h
    decreases x
  {
    HeadBounds(p, x);
    if x > 0 {
      assert Head(h / 2, x - 1) == h / 2;
      HeadInRange(p / 2, h / 2, x - 1);
    }
  }

  /** The buddy relation is symmetric and keeps the alignment. */
  lemma {:induction false} BuddyPair(i: nat, x: nat)
    requires Aligned(i, x)
    ensures var b := Buddy(i, x); b != i && Aligned(b, x) && Buddy(b, x) == i
    decreases x
  {
    if x > 0 {
      var j := i / 2;
      assert i == 2 * j && Head(j, x - 1) == j;
      BuddyPair(j, x - 1);
      HalveDouble(Buddy(j, x - 1));
    }
  }

  lemma HalveDouble(c: nat)
    ensures 2 * c / 2 == c && 2 * c % 2 == 0
  {
  }

  /** A block and its buddy are the two halves of the next larger block. */
  lemma {:induction false} BuddyHalves(i: nat, x: nat)
    requires Aligned(i, x)
    ensures var b := Buddy(i, x);
      && b != i && Aligned(b, x) && Buddy(b, x) == i
      && Head(i, x + 1) == Head(b, x + 1) == (if b < i then b else i)
      && (if b < i then i == b + Pow2(x) else b == i + Pow2(x))
    decreases x
  {
    BuddyPair(i, x);
    if x > 0 {
      var j := i / 2;
      assert i == 2 * j && Head(j, x - 1) == j;
      BuddyHalves(j, x - 1);
      HalveDouble(Buddy(j, x - 1));
    }
  }

  /** The next larger block around a page consists of the block around it and that block's buddy. */
  lemma {:induction false} HeadStep(p: nat, i: nat, x: nat)
    requires Aligned(i, x)
    ensures Head(p, x + 1) == Head(i, x + 1) <==> Head(p, x) == i || Head(p, x) == Buddy(i, x)
    decreases x
  {
    if x > 0 {
      assert Head(i / 2, x - 1) == i / 2;
      HeadStep(p / 2, i / 2, x - 1);
    }
  }

  /** A block aligned for a large order is aligned for every smaller one, and is its lower half. */
  lemma {:induction false} AlignedDown(i: nat, x: nat)
    requires Aligned(i, x + 1)
    ensures Aligned(i, x) && Buddy(i, x) == i + Pow2(x)
    decreases x
  {
    if x > 0 {
      assert Head(i / 2, x) == i / 2;
      AlignedDown(i / 2, x - 1);
    }
  }

  /** `i >> x`. */
  function Shr(i: nat, x: nat): nat
    decreases x
  {
    if x == 0 then i else Shr(i / 2, x - 1)
  }

  /** Distinct blocks of one order have distinct positions in the bitmap of that order. */
  lemma {:induction false} ShrInjective(i: nat, j: nat, x: nat)
    requires Aligned(i, x) && Aligned(j, x) && Shr(i, x) == Shr(j, x)
    ensures i == j
    decreases x
  {
    if x > 0 {
      assert Head(i / 2, x - 1) == i / 2 && Head(j / 2, x - 1) == j / 2;
      ShrInjective(i / 2, j / 2, x - 1);
    }
  }

  /** A block that fits into memory has a position inside the bitmap of its order. */
  lemma {:induction false} ShrInRange(i: nat, n: nat, x: nat)
    requires Aligned(i, x) && i + Pow2(x) <= n
    ensures Shr(i, x) < Shr(n, x)
    decreases x
  {
    if x > 0 {
      assert Head(i / 2, x - 1) == i / 2;
      ShrInRange(i / 2, n / 2, x - 1);
    }
  }
}
