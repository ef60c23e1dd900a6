/**
 Exact accounting of page frames: what allocating and freeing move between free, handed out and lost.
 */
module FrameAccounts {
  import opened Options
  import opened Frames
  import opened BuddyTiling
  import opened BuddyState
  import opened BuddySteps
  import opened FrameAllocators

  ghost function FreePages(bs: Blocks, lo: nat, n: nat): set<nat> {
    set p: nat | lo <= p < n && FreePage(bs, p)
  }

  ghost function UsedPages(bs: Blocks, lo: nat, n: nat): set<nat> {
    set p: nat | lo <= p < n && UsedPage(bs, p)
  }

  lemma {:induction false} RangeSize(lo: nat, n: nat)
    requires lo <= n
    ensures |Rest(lo, n)| == n - lo
    decreases n - lo
  {
    if lo == n {
      assert Rest(lo, n) == {};
    } else {
      RangeSize(lo + 1, n);
      assert Rest(lo, n) == {lo} + Rest(lo + 1, n) by {
        assert forall p: nat :: From(lo, p) <==> p == lo || From(lo + 1, p);
      }
    }
  }

  lemma PagesSize(h: nat, x: nat)
    requires Aligned(h, x)
    ensures |Pages(h, x)| == Pow2(x)
  {
    hide Head, Pow2;
    var n := h + Pow2(x);
    RangeSize(h, n);
    forall p: nat ensures p in Pages(h, x) <==> p in Rest(h, n) {
      HeadInRange(p, h, x);
      assert From(h, p) <==> h <= p;
    }
    assert Pages(h, x) == Rest(h, n);
  }

  /** Free, handed-out and lost pages always add up to the managed pages. */
  lemma PagesAddUp(bs: Blocks, lost: set<nat>, lo: nat, n: nat)
    requires Tiling(bs, lost, lo, n) && lo <= n
    ensures FreePages(bs, lo, n) !! UsedPages(bs, lo, n) !! lost
    ensures |FreePages(bs, lo, n)| + |UsedPages(bs, lo, n)| + |lost| == n - lo
  {
    hide Head, Pow2, FreePage, UsedPage;
    var f, u, all := FreePages(bs, lo, n), UsedPages(bs, lo, n), Rest(lo, n);
    forall p: nat | lo <= p < n ensures p in lost <==> !FreePage(bs, p) && !UsedPage(bs, p)
                                ensures !(FreePage(bs, p) && UsedPage(bs, p)) {
      PageIsOneOf(bs, lost, lo, n, p);
    }
    assert forall p: nat :: p in all <==> lo <= p < n && From(lo, p);
    assert all == f + u + lost;
    RangeSize(lo, n);
  }

  /** A successful allocation moves exactly 2^k pages from free to handed out. */
  lemma AllocationMoves(b0: Blocks, bs: Blocks, lost: set<nat>, lo: nat, n: nat, h: nat, k: nat)
    requires Tiling(b0, lost, lo, n) && Tiling(bs, lost, lo, n) && lo <= n && Carved(b0, bs, h, k) && k <= MAX_ORDER
    ensures |FreePages(bs, lo, n)| == |FreePages(b0, lo, n)| - Pow2(k)
    ensures |UsedPages(bs, lo, n)| == |UsedPages(b0, lo, n)| + Pow2(k)
  {
    hide Head, Pow2;
    PagesAddUp(b0, lost, lo, n);
    PagesAddUp(bs, lost, lo, n);
    PagesSize(h, k);
    RunIsManaged(b0, lost, lo, n, h, k);
    hide FreePage;
    forall p: nat ensures p in Pages(h, k) <==> Head(p, k) == h { HeadInRange(p, h, k); }
    assert FreePages(bs, lo, n) == FreePages(b0, lo, n) - Pages(h, k);
    assert Pages(h, k) <= FreePages(b0, lo, n);
  }

  lemma RunIsManaged(bs: Blocks, lost: set<nat>, lo: nat, n: nat, h: nat, k: nat)
    requires Tiling(bs, lost, lo, n) && FreeRun(bs, h, k)
    ensures forall p: nat :: Head(p, k) == h ==> lo <= p < n
  {
    hide Head, Pow2;
    forall p: nat | Head(p, k) == h ensures lo <= p < n {
      FreeIsManaged(bs, lost, lo, n, p);
    }
  }

  lemma FreeIsManaged(bs: Blocks, lost: set<nat>, lo: nat, n: nat, p: nat)
    requires Tiling(bs, lost, lo, n) && FreePage(bs, p)
    ensures lo <= p < n
  {
    hide Head, Pow2;
    var x: nat :| x <= MAX_ORDER && At(bs, p, x) && bs[Head(p, x)].free;
    HeadBounds(p, x);
    assert Fits(Head(p, x), x, lo, n);
  }

  /** Freeing a block of 2^x pages takes exactly those pages back; it loses exactly 1024 pages when the
      merging goes past the top order, and none otherwise. */
  lemma FreeingMoves(b0: Blocks, l0: set<nat>, bs: Blocks, lost: set<nat>, lo: nat, n: nat, i: nat, x: nat)
    requires Tiling(b0, l0, lo, n) && Tiling(bs, lost, lo, n) && lo <= n
    requires Out(b0, i, x) && Freed(b0, l0, bs, lost, i, x)
    ensures |UsedPages(bs, lo, n)| == |UsedPages(b0, lo, n)| - Pow2(x)
    ensures |lost| == |l0| + if MergeOrder(b0, i, x) <= MAX_ORDER then 0 else Pow2(MAX_ORDER)
  {
    hide Head, Pow2, Buddy, MergeOrder, FreePage, UsedPage, Pages, UsedPages, Covered, Apart;
    assert Fits(i, x, lo, n);
    PagesSize(i, x);
    TakenBack(b0, bs, lo, n, i, x);
    UsedShrinks(b0, bs, lo, n, i, x);
    UpperHalfSize(i);
  }

  lemma UpperHalfSize(i: nat)
    ensures |Pages(Head(i, MAX_ORDER + 1) + Pow2(MAX_ORDER), MAX_ORDER)| == Pow2(MAX_ORDER)
  {
    hide Head, Pow2, Buddy, Pages;
    var h := Head(i, MAX_ORDER);
    TopHalves(i);
    HeadOfHead(i, MAX_ORDER, MAX_ORDER);
    BuddyHalves(h, MAX_ORDER);
    PagesSize(Upper(h, MAX_ORDER), MAX_ORDER);
  }

  lemma TakenBack(b0: Blocks, bs: Blocks, lo: nat, n: nat, i: nat, x: nat)
    requires Apart(b0) && Out(b0, i, x) && Fits(i, x, lo, n)
    requires forall g: nat, y: nat :: Out(bs, g, y) <==> Out(b0, g, y) && g != i
    ensures forall p: nat :: UsedPage(bs, p) <==> UsedPage(b0, p) && p !in Pages(i, x)
    ensures forall p: nat :: p in Pages(i, x) ==> UsedPage(b0, p) && lo <= p < n
  {
    hide Head, Pow2, UsedPage, Apart, Out;
    forall p: nat
      ensures UsedPage(bs, p) <==> UsedPage(b0, p) && p !in Pages(i, x)
      ensures p in Pages(i, x) ==> UsedPage(b0, p) && lo <= p < n
    {
      HeadInRange(p, i, x);
      GivenBack(b0, bs, i, x, p);
    }
  }

  lemma UsedShrinks(b0: Blocks, bs: Blocks, lo: nat, n: nat, i: nat, x: nat)
    requires forall p: nat :: UsedPage(bs, p) <==> UsedPage(b0, p) && p !in Pages(i, x)
    requires forall p: nat :: p in Pages(i, x) ==> UsedPage(b0, p) && lo <= p < n
    ensures |UsedPages(bs, lo, n)| == |UsedPages(b0, lo, n)| - |Pages(i, x)|
  {
    hide Head, Pow2, UsedPage, Pages;
    assert UsedPages(bs, lo, n) == UsedPages(b0, lo, n) - Pages(i, x);
    assert Pages(i, x) <= UsedPages(b0, lo, n);
  }

  lemma GivenBack(b0: Blocks, bs: Blocks, i: nat, x: nat, p: nat)
    requires Apart(b0) && Out(b0, i, x) && x <= MAX_ORDER
    requires forall g: nat, y: nat :: Out(bs, g, y) <==> Out(b0, g, y) && g != i
    ensures UsedPage(bs, p) <==> UsedPage(b0, p) && Head(p, x) != i
    ensures Head(p, x) == i ==> UsedPage(b0, p)
  {
    hide Head, Pow2;
    assert Head(p, x) == i ==> At(b0, p, x);
    if UsedPage(b0, p) && Head(p, x) != i {
      var y: nat :| y <= MAX_ORDER && At(b0, p, y) && !b0[Head(p, y)].free;
      assert Out(b0, Head(p, y), y);
      assert Out(bs, Head(p, y), y);
      assert At(bs, p, y);
    }
    if UsedPage(bs, p) {
      var y: nat :| y <= MAX_ORDER && At(bs, p, y) && !bs[Head(p, y)].free;
      assert Out(bs, Head(p, y), y);
      assert Out(b0, Head(p, y), y);
      assert At(b0, p, y);
    }
  }

  /** All pages of the aligned run of 2^x pages around `h` are free. */
  ghost predicate FreeAround(bs: Blocks, h: nat, x: nat) {
    forall p: nat :: Head(p, x) == Head(h, x) ==> FreePage(bs, p)
  }

  /** The buddy of the block around `h` is free after the allocation if its pages were free before. */
  lemma BuddyFree(b0: Blocks, b1: Blocks, lost: set<nat>, lo: nat, n: nat, h: nat, k: nat, x: nat)
    requires Carved(b0, b1, h, k) && Tiling(b1, lost, lo, n) && Coalesced(b1) && k <= x <= MAX_ORDER
    ensures Aligned(Head(h, x), x)
    ensures In(b1, Buddy(Head(h, x), x), x) <==> forall p: nat :: Head(p, x) == Buddy(Head(h, x), x) ==> FreePage(b0, p)
  {
    hide Head, Pow2, Buddy, FreeRun;
    var i := Head(h, x);
    HeadOfHead(h, x, x);
    BuddyHalves(i, x);
    var b := Buddy(i, x);
    if In(b1, b, x) {
      BlockHasRun(b1, b, x, x);
      RunPages(b1, b, x);
    } else if forall p: nat :: Head(p, x) == b ==> FreePage(b0, p) {
      forall p: nat | Head(p, x) == b ensures FreePage(b1, p) {
        HeadOfHead(p, k, x);
        CarvedRun(b0, h, k);
      }
      var y := FreeRunInOneBlock(b1, lost, lo, n, b, x);
      HeadOfHead(b, x, x);
      CarvedRun(b0, h, k);
      BlockAbove(b1, h, k, x, y);
    }
  }

  lemma RunPages(bs: Blocks, b: nat, x: nat)
    requires FreeRun(bs, b, x)
    ensures forall p: nat :: Head(p, x) == b ==> FreePage(bs, p)
  {
  }

  lemma CarvedRun(b0: Blocks, h: nat, k: nat)
    requires FreeRun(b0, h, k)
    ensures Head(h, k) == h
  {
  }

  /** No block around the buddy that is larger than `x` is free: it would contain the block handed out. */
  lemma BlockAbove(b1: Blocks, h: nat, k: nat, x: nat, y: nat)
    requires Apart(b1) && k <= x <= y && Aligned(h, k) && Out(b1, h, k) && At(b1, Buddy(Head(h, x), x), y)
    requires b1[Head(Buddy(Head(h, x), x), y)].free
    ensures y == x
  {
    hide Pow2, Buddy;
    var i := Head(h, x);
    HeadOfHead(h, x, x);
    BuddyHalves(i, x);
    assert At(b1, h, k);
    if y > x {
      HeadOfHead(h, x, y);
      HeadOfHead(i, x + 1, y);
      HeadOfHead(Buddy(i, x), x + 1, y);
    }
    assert y > x ==> At(b1, h, y);
  }

  /** From the block of order `x` around `h` on, merging passes the top order exactly if all 2048 pages
      around `h` were free. */
  lemma {:induction false} MergesFrom(b0: Blocks, b1: Blocks, lost: set<nat>, lo: nat, n: nat, h: nat, k: nat, x: nat)
    requires Carved(b0, b1, h, k) && Tiling(b1, lost, lo, n) && Coalesced(b1) && k <= x <= MAX_ORDER + 1 && FreeAround(b0, h, x)
    ensures MergeOrder(b1, Head(h, x), x) > MAX_ORDER <==> FreeAround(b0, h, MAX_ORDER + 1)
    decreases MAX_ORDER + 1 - x
  {
    hide Head, Pow2, Buddy, Carved;
    if x <= MAX_ORDER {
      var i := Head(h, x);
      BuddyFree(b0, b1, lost, lo, n, h, k, x);
      BuddyHalves(i, x);
      HeadOfHead(h, x, x + 1);
      if In(b1, Buddy(i, x), x) {
        forall p: nat | Head(p, x + 1) == Head(h, x + 1) ensures FreePage(b0, p) {
          HeadStep(p, i, x);
        }
        MergesFrom(b0, b1, lost, lo, n, h, k, x + 1);
      } else {
        var p: nat :| Head(p, x) == Buddy(i, x) && !FreePage(b0, p);
        HeadOfHead(p, x, MAX_ORDER + 1);
        HeadOfHead(i, x + 1, MAX_ORDER + 1);
        HeadOfHead(Buddy(i, x), x + 1, MAX_ORDER + 1);
        HeadOfHead(h, x, MAX_ORDER + 1);
      }
    }
  }

  lemma PagesRestored(b0: Blocks, b1: Blocks, l1: set<nat>, b2: Blocks, l2: set<nat>, h: nat, k: nat)
    requires Carved(b0, b1, h, k) && Freed(b1, l1, b2, l2, h, k)
    ensures (forall p: nat :: FreePage(b2, p) <==> FreePage(b0, p)) <==> MergeOrder(b1, h, k) <= MAX_ORDER
  {
    hide Head, Pow2, Buddy, MergeOrder, FreePage;
    if MergeOrder(b1, h, k) > MAX_ORDER {
      var u := Head(h, MAX_ORDER + 1) + Pow2(MAX_ORDER);
      TopPagesAre(h, u);
      TopHalves(h);
      HeadOfHead(h, MAX_ORDER, MAX_ORDER);
      BuddyHalves(Head(h, MAX_ORDER), MAX_ORDER);
      assert u in Pages(u, MAX_ORDER) && !FreePage(b2, u);
      assert FreePage(b1, u) || Head(u, k) == h;
      assert FreePage(b0, u);
    }
  }

  lemma PagesLost(b1: Blocks, l1: set<nat>, b2: Blocks, l2: set<nat>, h: nat, k: nat)
    requires Freed(b1, l1, b2, l2, h, k)
    ensures |l2| == |l1| + if MergeOrder(b1, h, k) <= MAX_ORDER then 0 else Pow2(MAX_ORDER)
  {
    hide Head, Pow2, Buddy, MergeOrder, FreePage, Out;
    UpperHalfSize(h);
  }

  /** Giving back a block just taken restores the free pages, unless the 2048 pages around it, aligned, were
      all free before: then 1024 of them are lost. */
  lemma RoundTrip(b0: Blocks, b1: Blocks, l1: set<nat>, lo: nat, n: nat, b2: Blocks, l2: set<nat>, h: nat, k: nat)
    requires Tiling(b1, l1, lo, n) && Coalesced(b1) && k <= MAX_ORDER
    requires Carved(b0, b1, h, k) && Freed(b1, l1, b2, l2, h, k)
    ensures (forall p: nat :: FreePage(b2, p) <==> FreePage(b0, p)) <==> !FreeAround(b0, h, MAX_ORDER + 1)
    ensures |l2| == |l1| + if FreeAround(b0, h, MAX_ORDER + 1) then Pow2(MAX_ORDER) else 0
  {
    hide Head, Pow2, Buddy, MergeOrder, FreePage, Freed, Tiling, Coalesced, FreeRun;
    CarvedRun(b0, h, k);
    RunPages(b0, h, k);
    MergesFrom(b0, b1, l1, lo, n, h, k, k);
    PagesRestored(b0, b1, l1, b2, l2, h, k);
    PagesLost(b1, l1, b2, l2, h, k);
  }

  /** `alloc_frames` and then `free_frames` of what it gave. */
  method AllocThenFree(fa: FrameAllocator, k: nat) returns (h: Option<nat>)
    requires fa.Valid() && k <= MAX_ORDER
    modifies fa, fa.order
    ensures fa.Valid() && (h.None? <==> !exists a: nat :: FreeRun(old(fa.blocks), a, k))
    ensures h.None? ==> fa.blocks == old(fa.blocks) && fa.lost == old(fa.lost)
    ensures h.Some? ==>
      && FreePage(old(fa.blocks), h.value)
      && ((forall p: nat :: FreePage(fa.blocks, p) <==> FreePage(old(fa.blocks), p)) <==> !FreeAround(old(fa.blocks), h.value, MAX_ORDER + 1))
      && |fa.lost| == |old(fa.lost)| + if FreeAround(old(fa.blocks), h.value, MAX_ORDER + 1) then Pow2(MAX_ORDER) else 0
  {
    hide Head, Pow2, Buddy, MergeOrder, FreePage, Freed, Tiling, Coalesced, FreeRun, Listed, Marked;
    ghost var b0 := fa.blocks;
    var r := fa.AllocFrames(k);
    if r.None? {
      return None;
    }
    var g := r.value / PAGE_SIZE;
    TakenRun(b0, fa.blocks, fa.lost, fa.lo, fa.n, g, k);
    ghost var b1, l1 := fa.blocks, fa.lost;
    var freed := fa.FreeFrames(r.value);
    RoundTrip(b0, b1, l1, fa.lo, fa.n, fa.blocks, fa.lost, g, k);
    h := Some(g);
  }

  lemma TakenRun(b0: Blocks, b1: Blocks, lost: set<nat>, lo: nat, n: nat, h: nat, k: nat)
    requires Carved(b0, b1, h, k) && Tiling(b1, lost, lo, n)
    ensures h in b1 && b1[h].order == k && Out(b1, h, k) && h < n && FreePage(b0, h)
  {
    hide Pow2, Buddy;
    assert Out(b1, h, k);
    BlockInside(b1, lost, lo, n, h);
    HeadOfHead(h, k, k);
  }

  lemma Kilo()
    ensures Pow2(10) == 1024 && Pow2(11) == 2048 && Aligned(2048, 10) && Aligned(2048, 11)
  {
    hide Head;
    assert Pow2(3) == 8 && Pow2(6) == 64 && Pow2(9) == 512;
    HeadBounds(0, 11);
    AlignedNext(0, 11);
    AlignedDown(2048, 10);
  }

  lemma UpperPages(p: nat)
    ensures Head(p, 11) == 2048 <==> 2048 <= p < 4096
    ensures Head(p, 10) == 2048 ==> 2048 <= p < 4096
  {
    hide Head, Pow2;
    Kilo();
    HeadInRange(p, 2048, 11);
    HeadInRange(p, 2048, 10);
  }

  /** Concrete run: of the pages 2048 to 4095, all free, 1024 are taken and given back, and 1024 are lost. */
  method TopOrderRun() returns (fa: FrameAllocator)
    ensures fa.Valid() && |fa.lost| == 1024
  {
    hide Head, Pow2, Buddy, FreePage, Tiling, Coalesced, Listed, Marked, Ordered;
    Kilo();
    fa := new FrameAllocator(4096, 2048);
    forall p: nat ensures Head(p, 11) == 2048 <==> FreePage(fa.blocks, p) ensures Head(p, 10) == 2048 ==> FreePage(fa.blocks, p) {
      UpperPages(p);
    }
    assert FreeRun(fa.blocks, 2048, 10);
    ghost var b0 := fa.blocks;
    var h := AllocThenFree(fa, 10);
    assert FreeAround(b0, h.value, 11);
  }
}
