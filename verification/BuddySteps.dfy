/**
 What the steps of the allocator do to the pages: splitting a block in hand, merging it with its free
 buddy, and losing the upper half of a merge at the top order.
 */
module BuddySteps {
  import opened Frames
  import opened BuddyTiling
  import opened BuddyState

  /** Block `g` of order `y` is handed out. */
  ghost predicate Out(bs: Blocks, g: nat, y: nat) {
    g in bs && bs[g] == Block(y, false)
  }

  /** Block `g` of order `y` is free. */
  ghost predicate In(bs: Blocks, g: nat, y: nat) {
    g in bs && bs[g] == Block(y, true)
  }

  /** All pages of the aligned run of 2^k pages at `a` are free. */
  ghost predicate FreeRun(bs: Blocks, a: nat, k: nat) {
    Aligned(a, k) && forall p: nat :: Head(p, k) == a ==> FreePage(bs, p)
  }

  /** Every managed page is exactly one of free, handed out and lost. */
  lemma PageIsOneOf(bs: Blocks, lost: set<nat>, lo: nat, n: nat, p: nat)
    requires Tiling(bs, lost, lo, n) && lo <= p < n
    ensures p in lost <==> !FreePage(bs, p) && !UsedPage(bs, p)
    ensures !(FreePage(bs, p) && UsedPage(bs, p))
  {
  }

  /** A free block of order at least `k` starts with a free run of order `k`. */
  lemma BlockHasRun(bs: Blocks, h: nat, y: nat, k: nat)
    requires k <= y <= MAX_ORDER && In(bs, h, y) && Aligned(h, y) && Aligned(h, k)
    ensures FreeRun(bs, h, k)
  {
    hide Head, Pow2;
    forall p: nat | Head(p, k) == h ensures FreePage(bs, p) {
      HeadOfHead(p, k, y);
      assert At(bs, p, y);
    }
  }

  // ---- Splitting ------------------------------------------------------------

  /** The block `h` of order `x + 1` in hand is halved; both halves are in hand. */
  function Split(bs: Blocks, h: nat, x: nat): Blocks {
    bs[h := Block(x, false)][Buddy(h, x) := Block(x, false)]
  }

  lemma SplitStep(bs: Blocks, lost: set<nat>, lo: nat, n: nat, h: nat, x: nat)
    requires Tiling(bs, lost, lo, n) && x < MAX_ORDER && Out(bs, h, x + 1)
    ensures Buddy(h, x) !in bs && Halved(bs, Split(bs, h, x), h, x) && Tiling(Split(bs, h, x), lost, lo, n)
    ensures Fits(h, x, lo, n) && Fits(Buddy(h, x), x, lo, n) && Buddy(h, x) != h
  {
    hide Head, Pow2, Buddy;
    UpperHalfAbsent(bs, h, x);
    HalvedTiling(bs, Split(bs, h, x), h, x, lost, lo, n);
    BuddyHalves(h, x);
  }

  lemma SplitRecords(s: State, n: nat, bs: Blocks, h: nat, x: nat)
    requires Records(s, n, bs, {h}, {h}) && Out(bs, h, x + 1) && Buddy(h, x) !in bs && Buddy(h, x) != h
    ensures Records(s, n, Split(bs, h, x), {h, Buddy(h, x)}, {h, Buddy(h, x)})
  {
  }

  /** Freeing the upper half `b` of a split block: exactly its pages become free again. */
  lemma SplitPage(bs: Blocks, lost: set<nat>, lo: nat, n: nat, h: nat, x: nat, p: nat)
    requires Tiling(bs, lost, lo, n) && x < MAX_ORDER && Out(bs, h, x + 1) && Buddy(h, x) !in bs
    ensures var bs' := Split(bs, h, x)[Buddy(h, x) := Block(x, true)];
      FreePage(bs', p) <==> FreePage(bs, p) || Head(p, x) == Buddy(h, x)
  {
  }

  // ---- Merging --------------------------------------------------------------

  /** The lower of a block and its buddy. */
  function Lower(i: nat, x: nat): nat {
    if Buddy(i, x) < i then Buddy(i, x) else i
  }

  function Upper(i: nat, x: nat): nat {
    if Buddy(i, x) < i then i else Buddy(i, x)
  }

  /** The block `i` in hand joined with its buddy, both of order `x`. */
  function Joined(bs: Blocks, i: nat, x: nat): Blocks {
    (bs - {Upper(i, x)})[Lower(i, x) := Block(x + 1, false)]
  }

  lemma JoinIsHalving(bs: Blocks, i: nat, x: nat)
    requires Aligned(i, x) && i in bs && bs[i].order == x && Buddy(i, x) in bs && bs[Buddy(i, x)].order == x
    ensures Halved(Joined(bs, i, x), bs, Lower(i, x), x)
    ensures Lower(i, x) == Head(i, x + 1) && Buddy(Lower(i, x), x) == Upper(i, x) && Lower(i, x) != Upper(i, x)
  {
    hide Head, Pow2, Buddy;
    BuddyHalves(i, x);
    HeadOfHead(i, x + 1, x + 1);
  }

  lemma JoinStep(bs: Blocks, lost: set<nat>, lo: nat, n: nat, i: nat, x: nat)
    requires Tiling(bs, lost, lo, n) && x < MAX_ORDER && Out(bs, i, x) && In(bs, Buddy(i, x), x)
    ensures Tiling(Joined(bs, i, x), lost, lo, n)
  {
    hide Head, Pow2, Buddy;
    JoinIsHalving(bs, i, x);
    HalvedTiling(Joined(bs, i, x), bs, Lower(i, x), x, lost, lo, n);
  }

  lemma JoinRecords(s: State, n: nat, bs: Blocks, i: nat, x: nat, b: nat)
    requires Records(s, n, bs, {i, b}, {}) && b == Buddy(i, x) && Out(bs, i, x) && Out(bs, b, x)
    ensures Records(s, n, Joined(bs, i, x), {Lower(i, x)}, {})
  {
  }

  /** Merging takes exactly the pages of the joined block off the free pages. */
  lemma JoinPage(bs: Blocks, lost: set<nat>, lo: nat, n: nat, i: nat, x: nat, p: nat)
    requires Tiling(bs, lost, lo, n) && x < MAX_ORDER && Out(bs, i, x) && In(bs, Buddy(i, x), x)
    ensures FreePage(Joined(bs, i, x), p) <==> FreePage(bs, p) && Head(p, x + 1) != Lower(i, x)
    ensures Head(p, x) == i ==> Head(p, x + 1) == Lower(i, x)
    ensures Head(p, x + 1) == Lower(i, x) ==> Head(p, x) == i || FreePage(bs, p)
  {
    hide Head, Pow2, Buddy;
    var l, bs' := Lower(i, x), Joined(bs, i, x);
    JoinIsHalving(bs, i, x);
    HeadStep(p, i, x);
    assert Head(p, x) == i ==> At(bs, p, x);
    assert Head(p, x) == Buddy(i, x) ==> At(bs, p, x);
    if FreePage(bs, p) {
      var y: nat :| y <= MAX_ORDER && At(bs, p, y) && bs[Head(p, y)].free;
      HalvedAt(bs', bs, l, x, p, y);
      assert Head(p, x + 1) != l ==> At(bs', p, y);
    }
    if FreePage(bs', p) {
      var y: nat :| y <= MAX_ORDER && At(bs', p, y) && bs'[Head(p, y)].free;
      HalvedAt(bs', bs, l, x, p, y);
      assert At(bs, p, y);
    }
  }

  // ---- The top order --------------------------------------------------------

  /** Two blocks of the top order merged: the lower one stays, the upper one is forgotten. */
  function TopJoined(bs: Blocks, i: nat): Blocks {
    (bs - {Upper(i, MAX_ORDER)})[Lower(i, MAX_ORDER) := Block(MAX_ORDER, false)]
  }

  /** The pages of a block. */
  function Pages(h: nat, x: nat): set<nat> {
    set p: nat | h <= p < h + Pow2(x) && Head(p, x) == h
  }

  /** Forgetting a block in hand loses exactly its pages. */
  lemma ForgetStep(bs: Blocks, lost: set<nat>, lo: nat, n: nat, h: nat, x: nat)
    requires Tiling(bs, lost, lo, n) && h in bs && bs[h].order == x
    ensures Tiling(bs - {h}, lost + Pages(h, x), lo, n)
  {
    hide Head, Pow2, Buddy;
    var bs' := bs - {h};
    forall p: nat ensures Covered(bs', p) <==> Covered(bs, p) && Head(p, x) != h
                  ensures p in Pages(h, x) <==> Head(p, x) == h {
      ForgetAt(bs, h, x, p);
      HeadInRange(p, h, x);
    }
    forall p: nat, y: nat, z: nat | At(bs', p, y) && At(bs', p, z) ensures y == z {
      assert At(bs, p, y) && At(bs, p, z);
    }
    assert forall p: nat :: Head(p, x) == h ==> At(bs, p, x);
  }

  lemma ForgetAt(bs: Blocks, h: nat, x: nat, p: nat)
    requires Apart(bs) && h in bs && bs[h].order == x && x <= MAX_ORDER
    ensures Covered(bs - {h}, p) <==> Covered(bs, p) && Head(p, x) != h
    ensures FreePage(bs - {h}, p) <==> FreePage(bs, p) && Head(p, x) != h
    ensures Apart(bs - {h})
  {
    hide Head, Pow2;
    var bs' := bs - {h};
    assert forall q: nat, y: nat :: At(bs', q, y) ==> At(bs, q, y);
    assert Head(p, x) == h ==> At(bs, p, x);
    assert forall y: nat :: At(bs', p, y) <==> At(bs, p, y) && Head(p, y) != h;
    assert forall y: nat :: At(bs, p, y) && Head(p, y) == h ==> y == x;
  }

  /** Changing whether a block is free changes exactly its pages. */
  lemma FlipStep(bs: Blocks, lost: set<nat>, lo: nat, n: nat, h: nat, x: nat, free: bool)
    requires Tiling(bs, lost, lo, n) && h in bs && bs[h].order == x
    ensures Tiling(bs[h := Block(x, free)], lost, lo, n)
    ensures forall p: nat :: FreePage(bs[h := Block(x, free)], p) <==> if Head(p, x) == h then free else FreePage(bs, p)
  {
    hide Head, Pow2, Buddy;
    var bs' := bs[h := Block(x, free)];
    forall p: nat, y: nat ensures At(bs', p, y) <==> At(bs, p, y) {
    }
    forall p: nat ensures Covered(bs', p) <==> Covered(bs, p) {
      if Covered(bs, p) { var y: nat :| y <= MAX_ORDER && At(bs, p, y); assert At(bs', p, y); }
    }
    forall p: nat ensures FreePage(bs', p) <==> if Head(p, x) == h then free else FreePage(bs, p) {
      FlipPage(bs, h, x, free, p);
    }
  }

  lemma FlipPage(bs: Blocks, h: nat, x: nat, free: bool, p: nat)
    requires Apart(bs) && h in bs && bs[h].order == x && x <= MAX_ORDER
    ensures FreePage(bs[h := Block(x, free)], p) <==> if Head(p, x) == h then free else FreePage(bs, p)
  {
    hide Head, Pow2;
    var bs' := bs[h := Block(x, free)];
    assert forall y: nat :: At(bs', p, y) <==> At(bs, p, y);
    if Head(p, x) == h {
      assert At(bs, p, x) && At(bs', p, x);
    }
  }

  // ---- How far a merge goes --------------------------------------------------

  /** The order at which freeing the block `i` of order `x` stops merging; one above the top order
      when two blocks of the top order meet. */
  ghost function MergeOrder(bs: Blocks, i: nat, x: nat): (r: nat)
    ensures x <= r && (x <= MAX_ORDER + 1 ==> r <= MAX_ORDER + 1)
    decreases MAX_ORDER + 1 - x
  {
    if x <= MAX_ORDER && In(bs, Buddy(i, x), x) then MergeOrder(bs, Lower(i, x), x + 1) else x
  }
}
