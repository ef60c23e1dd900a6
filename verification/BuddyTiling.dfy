/**
 The block structure behind the buddy allocator, on values: which pages belong to which block, and
 what taking, splitting, merging and returning a block does to that.
 */
module BuddyTiling {
  import opened Frames

  /** A block of 2^order pages, free or handed out. */
  datatype Block = Block(order: nat, free: bool)

  /** Blocks by their first page. */
  type Blocks = map<nat, Block>

  /** The block of order `x` around page `p` exists. */
  ghost predicate At(bs: Blocks, p: nat, x: nat) {
    Head(p, x) in bs && bs[Head(p, x)].order == x
  }

  ghost predicate Covered(bs: Blocks, p: nat) {
    exists x: nat :: x <= MAX_ORDER && At(bs, p, x)
  }

  /** Page `p` lies in a free block. */
  ghost predicate FreePage(bs: Blocks, p: nat) {
    exists x: nat :: x <= MAX_ORDER && At(bs, p, x) && bs[Head(p, x)].free
  }

  /** Page `p` lies in a block that was handed out. */
  ghost predicate UsedPage(bs: Blocks, p: nat) {
    exists x: nat :: x <= MAX_ORDER && At(bs, p, x) && !bs[Head(p, x)].free
  }

  /** A block is aligned to its size and lies inside the managed pages `lo .. n`. */
  ghost predicate Fits(h: nat, x: nat, lo: nat, n: nat) {
    x <= MAX_ORDER && lo <= h && Aligned(h, x) && h + Pow2(x) <= n
  }

  /** No page is in two blocks. */
  ghost predicate Apart(bs: Blocks) {
    forall p: nat, x: nat, y: nat :: At(bs, p, x) && At(bs, p, y) ==> x == y
  }

  /** The blocks partition the managed pages that were not lost. */
  ghost predicate Tiling(bs: Blocks, lost: set<nat>, lo: nat, n: nat) {
    && (forall h :: h in bs ==> Fits(h, bs[h].order, lo, n))
    && Apart(bs)
    && (forall p :: p in lost ==> lo <= p < n && !Covered(bs, p))
    && (forall p :: lo <= p < n && p !in lost ==> Covered(bs, p))
  }

  /** No two free halves of one block below the top order. */
  ghost predicate Coalesced(bs: Blocks) {
    forall h :: h in bs && bs[h].free && bs[h].order < MAX_ORDER ==>
      var b := Buddy(h, bs[h].order); !(b in bs && bs[b] == bs[h])
  }

  /** A free run of 2^k aligned pages lies inside one free block: nothing allocatable is scattered. */
  lemma {:induction false} FreeRunInOneBlock(bs: Blocks, lost: set<nat>, lo: nat, n: nat, a: nat, k: nat) returns (y: nat)
    requires Tiling(bs, lost, lo, n) && Coalesced(bs) && k <= MAX_ORDER && Aligned(a, k)
    requires forall p :: Head(p, k) == a ==> FreePage(bs, p)
    ensures k <= y <= MAX_ORDER && At(bs, a, y) && bs[Head(a, y)].free
    decreases k
  {
    hide Head, Buddy, Pow2;
    if k == 0 {
      assert Head(a, 0) == a;
      y :| y <= MAX_ORDER && At(bs, a, y) && bs[Head(a, y)].free;
    } else {
      AlignedDown(a, k - 1);
      var b := Buddy(a, k - 1);
      forall p | Head(p, k - 1) == a || Head(p, k - 1) == b ensures FreePage(bs, p) {
        HeadStep(p, a, k - 1);
      }
      BuddyHalves(a, k - 1);
      y := FreeRunInOneBlock(bs, lost, lo, n, a, k - 1);
      var z := FreeRunInOneBlock(bs, lost, lo, n, b, k - 1);
      if z >= k {
        HeadOfHead(b, k, z);
        HeadOfHead(a, k, z);
      }
      assert z >= k ==> At(bs, a, z);
    }
  }

  // ---- Halving and joining blocks -----------------------------------------

  /** `fine` has the two halves of the block `h` of order `x + 1` of `coarse`. */
  ghost predicate Halved(coarse: Blocks, fine: Blocks, h: nat, x: nat) {
    var b := Buddy(h, x);
    && Aligned(h, x + 1)
    && h in coarse && coarse[h].order == x + 1 && b !in coarse
    && fine.Keys == coarse.Keys + {b} && fine[h].order == x && fine[b].order == x
    && (forall g :: g in coarse && g != h ==> fine[g] == coarse[g])
  }

  /** The page sees the same blocks, except that the halved block became the half around it. */
  lemma HalvedAt(coarse: Blocks, fine: Blocks, h: nat, x: nat, p: nat, y: nat)
    requires Halved(coarse, fine, h, x)
    ensures At(coarse, p, y) && Head(p, y) != h ==> At(fine, p, y) && fine[Head(p, y)] == coarse[Head(p, y)]
    ensures At(fine, p, y) && Head(p, y) != h && Head(p, y) != Buddy(h, x) ==>
      At(coarse, p, y) && fine[Head(p, y)] == coarse[Head(p, y)]
    ensures At(coarse, p, y) && Head(p, y) == h ==> y == x + 1 && (Head(p, x) == h || Head(p, x) == Buddy(h, x))
    ensures At(fine, p, y) && (Head(p, y) == h || Head(p, y) == Buddy(h, x)) ==> y == x && Head(p, x + 1) == h
  {
    hide Head, Buddy, Pow2;
    AlignedDown(h, x);
    HeadStep(p, h, x);
  }

  lemma HalvedCovered(coarse: Blocks, fine: Blocks, h: nat, x: nat, p: nat)
    requires Halved(coarse, fine, h, x) && x < MAX_ORDER
    ensures Covered(coarse, p) <==> Covered(fine, p)
  {
    hide Head, Buddy, Pow2;
    if Covered(coarse, p) {
      var y: nat :| y <= MAX_ORDER && At(coarse, p, y);
      HalvedAt(coarse, fine, h, x, p, y);
      assert At(fine, p, y) || At(fine, p, x);
    }
    if Covered(fine, p) {
      var y: nat :| y <= MAX_ORDER && At(fine, p, y);
      HalvedAt(coarse, fine, h, x, p, y);
      assert At(coarse, p, y) || At(coarse, p, x + 1);
    }
  }

  /** Halving a block or joining two halves does not change which pages are tiled. */
  lemma HalvedTiling(coarse: Blocks, fine: Blocks, h: nat, x: nat, lost: set<nat>, lo: nat, n: nat)
    requires Halved(coarse, fine, h, x) && x < MAX_ORDER
    ensures Tiling(coarse, lost, lo, n) <==> Tiling(fine, lost, lo, n)
  {
    hide Head, Buddy, Pow2;
    AlignedDown(h, x);
    BuddyHalves(h, x);
    forall p: nat ensures Covered(coarse, p) <==> Covered(fine, p) {
      HalvedCovered(coarse, fine, h, x, p);
    }
    HalvedApart(coarse, fine, h, x);
    HalvedFits(h, x, lo, n);
    forall g | g in coarse ensures g != h ==> Fits(g, coarse[g].order, lo, n) == Fits(g, fine[g].order, lo, n) {
    }
  }

  lemma HalvedFits(h: nat, x: nat, lo: nat, n: nat)
    requires Aligned(h, x + 1) && x < MAX_ORDER
    ensures Fits(h, x + 1, lo, n) <==> Fits(h, x, lo, n) && Fits(Buddy(h, x), x, lo, n)
  {
    hide Head, Buddy;
    AlignedDown(h, x);
    BuddyHalves(h, x);
  }

  lemma HalvedApart(coarse: Blocks, fine: Blocks, h: nat, x: nat)
    requires Halved(coarse, fine, h, x)
    ensures Apart(coarse) <==> Apart(fine)
  {
    hide Head, Buddy, Pow2;
    if Apart(coarse) {
      forall p: nat, y: nat, z: nat | At(fine, p, y) && At(fine, p, z) ensures y == z {
        HalvedAt(coarse, fine, h, x, p, y);
        HalvedAt(coarse, fine, h, x, p, z);
        assert At(coarse, p, y) || At(coarse, p, x + 1);
        assert At(coarse, p, z) || At(coarse, p, x + 1);
      }
    }
    if Apart(fine) {
      forall p: nat, y: nat, z: nat | At(coarse, p, y) && At(coarse, p, z) ensures y == z {
        HalvedAt(coarse, fine, h, x, p, y);
        HalvedAt(coarse, fine, h, x, p, z);
        assert At(fine, p, y) || At(fine, p, x);
        assert At(fine, p, z) || At(fine, p, x);
      }
    }
  }

  /** The upper half of an existing block is not itself a block. */
  lemma UpperHalfAbsent(bs: Blocks, h: nat, x: nat)
    requires Apart(bs) && (forall g :: g in bs ==> Aligned(g, bs[g].order))
    requires h in bs && bs[h].order == x + 1
    ensures Buddy(h, x) !in bs
  {
    hide Head, Buddy, Pow2;
    AlignedDown(h, x);
    BuddyHalves(h, x);
    var b := Buddy(h, x);
    assert At(bs, b, x + 1) && (b in bs ==> At(bs, b, bs[b].order));
  }
}
