/**
 The buddy allocator of physical page frames.
 */
module FrameAllocators {
  import opened Options
  import opened Frames
  import opened BuddyTiling
  import opened BuddyState
  import opened BuddySteps
  import opened Lists

  const PAGE_SIZE: nat := 4096

  class FrameAllocator {
    /** Pages of memory, and the first page that the allocator manages. */
    const n: nat
    const lo: nat
    /** The order field of every page. */
    const order: array<nat>
    /** Per block order: the free list, the bitmap and the number of free blocks. */
    var lists: seq<seq<nat>>
    var bits: seq<seq<bool>>
    var avail: seq<int>
    /** The blocks, and the pages lost in merges at the top order. */
    ghost var blocks: Blocks
    ghost var lost: set<nat>

    ghost function View(): State
      reads this, order
    {
      State(order[..], lists, bits, avail)
    }

    /** The data describe the blocks, except that some blocks in hand are not yet recorded. */
    ghost predicate Holding(hand: set<nat>, unmarked: set<nat>)
      reads this, order
    {
      && order.Length == n && 0 < lo
      && Tiling(blocks, lost, lo, n) && Coalesced(blocks)
      && Records(View(), n, blocks, hand, unmarked)
    }

    ghost predicate Valid()
      reads this, order
    {
      Holding({}, {})
    }

    /** `init`: makes blocks of all managed pages, as large as they fit. The kernel lies below them. */
    constructor (n: nat, lo: nat)
      requires Aligned(lo, MAX_ORDER) && 0 < lo
      ensures Valid() && fresh(order) && this.n == n && this.lo == lo && lost == {}
      ensures forall p: nat :: FreePage(blocks, p) <==> lo <= p < n
      ensures forall g: nat, y: nat :: !Out(blocks, g, y)
    {
      hide Head, Pow2, Buddy, Shr;
      this.n, this.lo := n, lo;
      order := new nat[n](_ => NO_ORDER);
      lists := seq(MAX_ORDER + 1, _ => []);
      bits := seq(MAX_ORDER + 1, x requires 0 <= x => seq(Shr(n, x), _ => false));
      avail := seq(MAX_ORDER + 1, _ => 0);
      blocks, lost := map[], Rest(lo, n);
      new;
      MakeBlocks();
      AllFreePages(blocks, lo, n);
    }

    /** The block-making loop of `init`. */
    method MakeBlocks()
      requires Valid() && blocks == map[] && lost == Rest(lo, n) && Aligned(lo, MAX_ORDER)
      modifies this, order
      ensures Valid() && lost == {} && AllFree(blocks)
    {
      hide Head, Pow2, Buddy, Shr, Tiling, Coalesced, Listed, Ordered, Marked, Shape;
      var i: nat, x: nat := lo, MAX_ORDER;
      while i < n
        invariant lo <= i && (i <= n || i == lo) && x <= MAX_ORDER && Aligned(i, x) && Valid() && lost == Rest(i, n)
        invariant AllFree(blocks) && NoneBelow(blocks, x) && (x < MAX_ORDER ==> n - i < Pow2(x))
      {
        x := LargestOrder(i, x);
        PowUp(x);
        MakeBlock(i, x);
        AlignedNext(i, x);
        i := i + Pow2(x);
      }
      assert Rest(i, n) == {};
    }

    /** Lowers the order until the block at page `i` fits into memory. */
    method LargestOrder(i: nat, y: nat) returns (x: nat)
      requires i < n && Aligned(i, y)
      ensures x <= y && Aligned(i, x) && i + Pow2(x) <= n && (x < y ==> n < i + Pow2(x + 1))
    {
      hide Head, Pow2, Buddy;
      x := y;
      while i + Pow2(x) > n
        invariant x <= y && Aligned(i, x) && (x < y ==> n < i + Pow2(x + 1))
      {
        PowDown(x);
        x := x - 1;
        AlignedDown(i, x);
      }
    }

    /** Makes the free block of order `x` at page `i`, the first page without a block. */
    method MakeBlock(i: nat, x: nat)
      requires Valid() && lost == Rest(i, n) && lo <= i && x <= MAX_ORDER && Aligned(i, x) && i + Pow2(x) <= n
      requires AllFree(blocks) && NoneBelow(blocks, x) && (x < MAX_ORDER ==> NoneBelow(blocks, x + 1))
      modifies this, order
      ensures Valid() && lost == Rest(i + Pow2(x), n) && AllFree(blocks) && NoneBelow(blocks, x)
    {
      hide Head, Pow2, Buddy, Shr, Coalesced, Tiling, Listed, Ordered, Marked, Shape, Rest;
      AppendStep(blocks, lo, n, i, x);
      AppendRecords(View(), n, blocks, i, x);
      AppendCoalesced(blocks, i, x);
      lost := Rest(i + Pow2(x), n);
      blocks := blocks[i := Block(x, false)];
      Push(i, x, {i}, {});
      assert {i} - {i} == {} && {} - {i} == {};
    }

    /** Enters a block in hand into its free list. */
    method Push(i: nat, x: nat, ghost hand: set<nat>, ghost unmarked: set<nat>)
      requires Holding(hand, unmarked) && Out(blocks, i, x)
      requires x < MAX_ORDER ==> !In(blocks, Buddy(i, x), x)
      modifies this, order
      ensures Holding(hand - {i}, unmarked - {i})
      ensures blocks == old(blocks)[i := Block(x, true)] && lost == old(lost)
    {
      hide Head, Pow2, Buddy, Shr;
      PushedRecords(View(), n, blocks, i, x, lo, hand, unmarked);
      FlipStep(blocks, lost, lo, n, i, x, true);
      PushedCoalesced(blocks, lost, lo, n, i, x);
      order[i] := x;
      lists := lists[x := [i] + lists[x]];
      bits := bits[x := bits[x][Shr(i, x) := true]];
      avail := avail[x := avail[x] + 1];
      blocks := blocks[i := Block(x, true)];
      assert View() == Pushed(old(View()), n, i, x);
    }

    /** Takes the first block off the free list of order `x`. */
    method Take(x: nat) returns (h: nat)
      requires Valid() && x <= MAX_ORDER && lists[x] != []
      modifies this
      ensures Holding({h}, {h}) && In(old(blocks), h, x) && blocks == old(blocks)[h := Block(x, false)]
      ensures lost == old(lost)
    {
      hide Head, Pow2, Buddy, Shr, FreePage, Covered, Tiling;
      h := lists[x][0];
      UnlistedRecords(View(), n, blocks, h, x, {}, {});
      FlipStep(blocks, lost, lo, n, h, x, false);
      lists := lists[x := lists[x][1..]];
      avail := avail[x := avail[x] - 1];
      blocks := blocks[h := Block(x, false)];
      assert View() == Unlisted(old(View()), h, x);
    }

    /** Halves the block in hand and frees its upper half. */
    method SplitOnce(h: nat, x: nat)
      requires Holding({h}, {h}) && Out(blocks, h, x + 1) && x < MAX_ORDER
      modifies this, order
      ensures Holding({h}, {h}) && Buddy(h, x) !in old(blocks)
      ensures blocks == Split(old(blocks), h, x)[Buddy(h, x) := Block(x, true)] && lost == old(lost)
    {
      hide Head, Pow2, Buddy, Shr;
      SplitStep(blocks, lost, lo, n, h, x);
      SplitRecords(View(), n, blocks, h, x);
      BuddyHalves(h, x);
      var b := Buddy(h, x);
      blocks := Split(blocks, h, x);
      Push(b, x, {h, b}, {h, b});
    }

    /** Records the block in hand as handed out with order `k`. */
    method Settle(h: nat, k: nat)
      requires Holding({h}, {h}) && Out(blocks, h, k)
      modifies this`bits, order
      ensures Valid()
    {
      hide Head, Pow2, Buddy, Shr;
      ghost var s := View();
      order[h] := k;
      assert View() == s.(order := s.order[h := k]);
      OrderedRecords(s, n, blocks, h, k);
      UnmarkedRecords(View(), n, blocks, h, k, lo, {}, {h});
      ghost var s' := View();
      bits := bits[k := bits[k][Shr(h, k) := false]];
      assert View() == Unmarked(s', h, k);
    }

    /** Halves the block in hand until it has order `k`. */
    method SplitDown(h: nat, x0: nat, k: nat, ghost b0: Blocks)
      requires Holding({h}, {h}) && k <= x0 <= MAX_ORDER && Out(blocks, h, x0) && Carved(b0, blocks, h, x0)
      modifies this, order
      ensures Holding({h}, {h}) && Out(blocks, h, k) && Carved(b0, blocks, h, k) && lost == old(lost)
    {
      hide Head, Pow2, Buddy, Shr;
      var x := x0;
      while x > k
        invariant k <= x <= MAX_ORDER && Holding({h}, {h}) && Out(blocks, h, x) && Carved(b0, blocks, h, x)
        invariant lost == old(lost)
      {
        x := x - 1;
        ghost var b1 := blocks;
        SplitOnce(h, x);
        SplitLoopStep(b0, b1, lost, lo, n, h, x);
      }
    }

    /** The least order from `k` on whose list is not empty. */
    method FirstNonempty(k: nat) returns (x: nat)
      requires |lists| == MAX_ORDER + 1 && k <= MAX_ORDER
      ensures k <= x <= MAX_ORDER + 1 && (x <= MAX_ORDER ==> lists[x] != [])
      ensures forall y :: k <= y < x ==> lists[y] == []
    {
      x := k;
      while x <= MAX_ORDER && lists[x] == []
        invariant k <= x <= MAX_ORDER + 1 && forall y :: k <= y < x ==> lists[y] == []
      {
        x := x + 1;
      }
    }

    /** `alloc_frames`: 2^k contiguous aligned pages, or nothing exactly when no such run is free.
        The result is a physical address. */
    method AllocFrames(k: nat) returns (r: Option<nat>)
      requires Valid() && k <= MAX_ORDER
      modifies this, order
      ensures Valid() && lost == old(lost)
      ensures r.None? <==> !exists a: nat :: FreeRun(old(blocks), a, k)
      ensures r.None? ==> blocks == old(blocks) && View() == old(View())
      ensures r.Some? ==> var h := r.value / PAGE_SIZE; 0 < r.value == h * PAGE_SIZE && Carved(old(blocks), blocks, h, k)
      ensures r.Some? ==> SmallestAt(old(blocks), r.value / PAGE_SIZE, k)
    {
      hide Head, Pow2, Buddy, Shr, Tiling, Coalesced, Listed, Ordered, Marked, FreeRun, SmallestAt;
      var x := FirstNonempty(k);
      if x > MAX_ORDER {
        NothingFits(View(), n, blocks, lost, lo, k);
        return None;
      }
      ghost var b0, v0 := blocks, View();
      var h := Take(x);
      SmallestTaken(v0, b0, lost, lo, n, h, x, k);
      TakenCarved(b0, lost, lo, n, h, x);
      SplitDown(h, x, k, b0);
      Settle(h, k);
      BlockInside(blocks, lost, lo, n, h);
      r := Some(h * PAGE_SIZE);
    }

    /** Takes the free buddy `b` of order `x` of the block `i` in hand off its list. */
    method TakeBuddy(i: nat, b: nat, x: nat)
      requires Holding({i}, {}) && x <= MAX_ORDER && In(blocks, b, x) && b != i
      modifies this
      ensures Holding({i, b}, {}) && blocks == old(blocks)[b := Block(x, false)] && lost == old(lost)
    {
      hide Head, Pow2, Buddy, Shr;
      UnlistedRecords(View(), n, blocks, b, x, {i}, {});
      FlipStep(blocks, lost, lo, n, b, x, false);
      lists := lists[x := Remove(lists[x], b)];
      avail := avail[x := avail[x] - 1];
      blocks := blocks[b := Block(x, false)];
      assert View() == Unlisted(old(View()), b, x);
      ghost var s := View();
      UnmarkedRecords(s, n, blocks, b, x, lo, {i, b}, {b});
      bits := bits[x := bits[x][Shr(b, x) := false]];
      assert View() == Unmarked(s, b, x);
    }

    /** Merges the block in hand with its free buddy below the top order. */
    method Merge(i: nat, x: nat)
      requires Holding({i}, {}) && x < MAX_ORDER && Out(blocks, i, x) && In(blocks, Buddy(i, x), x)
      modifies this
      ensures Holding({Lower(i, x)}, {}) && blocks == Joined(old(blocks), i, x) && lost == old(lost)
    {
      hide Head, Pow2, Buddy, Shr, Coalesced, Listed, Ordered, Marked, Joined;
      ghost var b0 := blocks;
      BuddyHalves(i, x) by { assert Fits(i, x, lo, n); }
      JoinStep(b0, lost, lo, n, i, x);
      JoinUnmarked(b0, i, x);
      var b := Buddy(i, x);
      TakeBuddy(i, b, x);
      JoinRecords(View(), n, blocks, i, x, b);
      blocks := Joined(b0, i, x);
    }

    /** Merges the block in hand with its free buddy at the top order: the upper half is lost. */
    method MergeTop(i: nat)
      requires Holding({i}, {}) && Out(blocks, i, MAX_ORDER) && In(blocks, Buddy(i, MAX_ORDER), MAX_ORDER)
      modifies this
      ensures var l, u := Lower(i, MAX_ORDER), Upper(i, MAX_ORDER);
        && Holding({l}, {}) && blocks == TopJoined(old(blocks), i)
        && lost == old(lost) + Pages(u, MAX_ORDER)
    {
      hide Head, Pow2, Buddy, Shr, Coalesced, Listed, Ordered, Marked, TopJoined, Pages;
      ghost var b0 := blocks;
      BuddyHalves(i, MAX_ORDER) by { assert Fits(i, MAX_ORDER, lo, n); }
      var b := Buddy(i, MAX_ORDER);
      TakeBuddy(i, b, MAX_ORDER);
      ghost var l, u := Lower(i, MAX_ORDER), Upper(i, MAX_ORDER);
      ForgetStep(blocks, lost, lo, n, u, MAX_ORDER);
      assert {l, u} == {i, b};
      ForgetRecords(View(), n, blocks, l, u);
      TopJoinUnmarked(b0, i);
      ForgetCoalesced(blocks, u);
      lost := lost + Pages(u, MAX_ORDER);
      blocks := blocks - {u};
    }

    /** One merge of the block `i` in hand, at or below the top order. */
    method MergeOnce(i: nat, x: nat, ghost b0: Blocks, ghost l0: set<nat>, ghost i0: nat, ghost x0: nat)
      requires x0 <= x <= MAX_ORDER && i == Head(i0, x) && Holding({i}, {})
      requires Progress(b0, l0, blocks, lost, i0, x0, x) && In(blocks, Buddy(i, x), x)
      modifies this
      ensures Head(i0, x + 1) == Lower(i, x) && Holding({Lower(i, x)}, {})
      ensures Progress(b0, l0, blocks, lost, i0, x0, x + 1)
    {
      hide Head, Pow2, Buddy, Shr, Coalesced, Listed, Ordered, Marked, Joined, TopJoined, Grown, ToppedOut, Pages;
      assert Fits(i, x, lo, n);
      if x < MAX_ORDER {
        GrowStep(b0, blocks, lost, lo, n, i0, x0, x);
        Merge(i, x);
      } else {
        TopStep(b0, blocks, i0, x0);
        MergeTop(i);
      }
    }

    /** The merge loop of `free_frames`: from the block in hand as far as free buddies reach. */
    method MergeUp(i0: nat, x0: nat) returns (i: nat, x: nat)
      requires Holding({i0}, {}) && Out(blocks, i0, x0)
      modifies this
      ensures x == MergeOrder(old(blocks), i0, x0) && i == Head(i0, x) && Holding({i}, {})
      ensures Progress(old(blocks), old(lost), blocks, lost, i0, x0, x)
      ensures x <= MAX_ORDER ==> !In(blocks, Buddy(i, x), x)
    {
      hide Head, Pow2, Buddy, Shr, Coalesced, Listed, Ordered, Marked, ToppedOut, Pages;
      ghost var b0, l0 := blocks, lost;
      assert Fits(i0, x0, lo, n);
      i, x := i0, x0;
      StartGrown(b0, i0, x0);
      while x <= MAX_ORDER
        invariant x0 <= x <= MAX_ORDER + 1 && Holding({i}, {}) && i == Head(i0, x)
        invariant Progress(b0, l0, blocks, lost, i0, x0, x)
        invariant MergeOrder(b0, i, x) == MergeOrder(b0, i0, x0)
      {
        var b := Buddy(i, x);
        assert Fits(i, x, lo, n);
        BuddyTest(View(), n, blocks, lost, lo, i, x);
        assert In(blocks, b, x) <==> In(b0, b, x);
        if !(b < n && order[b] == x && bits[x][Shr(b, x)]) {
          break;
        }
        MergeOnce(i, x, b0, l0, i0, x0);
        if b < i {
          i := b;
        }
        x := x + 1;
      }
    }

    /** `free_frames`: returns the size in pages of the free block that results. None stands for the
        halt on an address that is outside memory or never headed a block. */
    method FreeFrames(p: nat) returns (r: Option<nat>)
      requires Valid()
      requires p < n * PAGE_SIZE && order[p / PAGE_SIZE] <= MAX_ORDER ==> Out(blocks, p / PAGE_SIZE, order[p / PAGE_SIZE])
      modifies this, order
      ensures Valid()
      ensures r.None? <==> p >= n * PAGE_SIZE || old(order[p / PAGE_SIZE]) > MAX_ORDER
      ensures r.None? ==> blocks == old(blocks) && lost == old(lost) && View() == old(View())
      ensures r.Some? ==>
        var i, x := p / PAGE_SIZE, old(order[p / PAGE_SIZE]); var m := MergeOrder(old(blocks), i, x);
        && Freed(old(blocks), old(lost), blocks, lost, i, x)
        && r.value == Pow2(if m <= MAX_ORDER then m else MAX_ORDER)
    {
      hide Head, Pow2, Buddy, Shr, Coalesced, Listed, Marked, Pages, Grown, ToppedOut, FreePage, MergeOrder;
      if p >= n * PAGE_SIZE {
        return None;
      }
      var i0 := p / PAGE_SIZE;
      var x0 := order[i0];
      if x0 > MAX_ORDER {
        return None;
      }
      ghost var b0, l0 := blocks, lost;
      assert Holding({i0}, {});
      var i, x := MergeUp(i0, x0);
      var o := if x <= MAX_ORDER then x else MAX_ORDER;
      FreedStep(b0, l0, blocks, lost, lo, n, i0, x0, x);
      Push(i, o, {i}, {});
      assert {i} - {i} == {} && {} - {i} == {};
      r := Some(Pow2(o));
    }
  }

  /** From `b0` to `bs` exactly the block `i` of order `x` was given back; the upper half of a merge
      at the top order is lost, and nothing else. */
  ghost predicate Freed(b0: Blocks, l0: set<nat>, bs: Blocks, lost: set<nat>, i: nat, x: nat) {
    var gone := if MergeOrder(b0, i, x) <= MAX_ORDER then {} else Pages(Head(i, MAX_ORDER + 1) + Pow2(MAX_ORDER), MAX_ORDER);
    && lost == l0 + gone && l0 !! gone
    && (forall p: nat :: p in gone ==> FreePage(b0, p) || Head(p, x) == i)
    && (forall p: nat :: FreePage(bs, p) <==> (FreePage(b0, p) || Head(p, x) == i) && p !in gone)
    && (forall g: nat, y: nat :: Out(bs, g, y) <==> Out(b0, g, y) && g != i)
  }

  /** The managed pages that have no block yet. */
  function Rest(i: nat, n: nat): set<nat> {
    set p: nat | p < n && From(i, p)
  }

  predicate From(i: nat, p: nat) {
    i <= p
  }

  ghost predicate AllFree(bs: Blocks) {
    forall h :: h in bs ==> bs[h].free
  }

  /** Blocks below the top order have at least order `x`. */
  ghost predicate NoneBelow(bs: Blocks, x: nat) {
    forall h :: h in bs && bs[h].order < MAX_ORDER ==> x <= bs[h].order
  }

  lemma AllFreePages(bs: Blocks, lo: nat, n: nat)
    requires Tiling(bs, {}, lo, n) && AllFree(bs)
    ensures forall p: nat :: FreePage(bs, p) <==> lo <= p < n
    ensures forall g: nat, y: nat :: !Out(bs, g, y)
  {
    hide Head, Pow2;
    forall p: nat ensures FreePage(bs, p) <==> lo <= p < n {
      if Covered(bs, p) {
        var x: nat :| x <= MAX_ORDER && At(bs, p, x);
        HeadBounds(p, x);
        assert Fits(Head(p, x), x, lo, n);
      }
    }
  }

  lemma PowDown(x: nat)
    ensures x > 0 ==> Pow2(x) == 2 * Pow2(x - 1)
    ensures x == 0 ==> Pow2(x) == 1
  {
  }

  lemma PowUp(x: nat)
    ensures Pow2(x + 1) == 2 * Pow2(x)
  {
  }

  lemma {:induction false} AlignedNext(i: nat, x: nat)
    requires Aligned(i, x)
    ensures Aligned(i + Pow2(x), x)
    decreases x
  {
    if x > 0 {
      assert Head(i / 2, x - 1) == i / 2;
      AlignedNext(i / 2, x - 1);
      assert (i + Pow2(x)) / 2 == i / 2 + Pow2(x - 1);
    }
  }

  lemma AppendAt(bs: Blocks, lo: nat, n: nat, i: nat, x: nat, p: nat, y: nat)
    requires Tiling(bs, Rest(i, n), lo, n) && Aligned(i, x) && i + Pow2(x) <= n && i !in bs
    ensures At(bs[i := Block(x, false)], p, y) <==> At(bs, p, y) || (y == x && Head(p, x) == i)
    ensures At(bs, p, y) ==> y <= MAX_ORDER && lo <= p < i
    ensures Head(p, x) == i <==> i <= p < i + Pow2(x)
  {
    hide Head, Pow2, Buddy;
    HeadInRange(p, i, x);
    HeadBounds(p, y);
    assert At(bs, p, y) ==> Fits(Head(p, y), y, lo, n) && Covered(bs, p);
    assert i <= p < n ==> p in Rest(i, n);
  }

  lemma AppendStep(bs: Blocks, lo: nat, n: nat, i: nat, x: nat)
    requires Tiling(bs, Rest(i, n), lo, n) && lo <= i && x <= MAX_ORDER && Aligned(i, x) && i + Pow2(x) <= n
    ensures i !in bs && Tiling(bs[i := Block(x, false)], Rest(i + Pow2(x), n), lo, n)
  {
    hide Head, Pow2, Buddy;
    var bs' := bs[i := Block(x, false)];
    assert i !in bs by {
      assert i in Rest(i, n);
      assert i in bs ==> Fits(i, bs[i].order, lo, n) && At(bs, i, bs[i].order);
    }
    forall p: nat, y: nat
      ensures At(bs', p, y) <==> At(bs, p, y) || (y == x && Head(p, x) == i)
      ensures At(bs, p, y) ==> y <= MAX_ORDER && lo <= p < i
      ensures Head(p, x) == i <==> i <= p < i + Pow2(x)
    {
      AppendAt(bs, lo, n, i, x, p, y);
    }
    forall p: nat ensures Covered(bs', p) <==> Covered(bs, p) || Head(p, x) == i {
      assert Head(p, x) == i ==> At(bs', p, x);
      if Covered(bs, p) { var y: nat :| y <= MAX_ORDER && At(bs, p, y); assert At(bs', p, y); }
    }
    var j := i + Pow2(x);
    assert Apart(bs');
    assert forall h :: h in bs' ==> Fits(h, bs'[h].order, lo, n);
    forall p: nat | p in Rest(j, n) ensures lo <= p < n && !Covered(bs', p) {
      assert p in Rest(i, n);
    }
    forall p: nat | lo <= p < n && p !in Rest(j, n) ensures Covered(bs', p) {
      AppendAt(bs, lo, n, i, x, p, x);
    }
  }

  lemma AppendRecords(s: State, n: nat, bs: Blocks, i: nat, x: nat)
    requires Records(s, n, bs, {}, {}) && i !in bs
    ensures Records(s, n, bs[i := Block(x, false)], {i}, {})
  {
  }

  lemma AppendCoalesced(bs: Blocks, i: nat, x: nat)
    requires Coalesced(bs) && i !in bs && (x < MAX_ORDER ==> NoneBelow(bs, x + 1))
    ensures var bs' := bs[i := Block(x, false)];
      Coalesced(bs') && (x < MAX_ORDER ==> !In(bs', Buddy(i, x), x))
  {
  }

  /** How far the block `i0` in hand has come when the merge loop looks at order `x`. */
  ghost predicate Progress(b0: Blocks, l0: set<nat>, bs: Blocks, lost: set<nat>, i0: nat, x0: nat, x: nat) {
    if x <= MAX_ORDER then
      Out(bs, Head(i0, x), x) && Grown(b0, bs, i0, x0, x) && lost == l0
    else
      && Out(bs, Head(i0, MAX_ORDER + 1), MAX_ORDER) && ToppedOut(b0, bs, i0, x0)
      && lost == l0 + Pages(Head(i0, MAX_ORDER + 1) + Pow2(MAX_ORDER), MAX_ORDER)
  }

  lemma GrowStep(b0: Blocks, b1: Blocks, lost: set<nat>, lo: nat, n: nat, i0: nat, x0: nat, x: nat)
    requires Tiling(b1, lost, lo, n) && x0 <= x < MAX_ORDER && Grown(b0, b1, i0, x0, x)
    requires var i := Head(i0, x); Out(b1, i, x) && In(b1, Buddy(i, x), x)
    ensures var i := Head(i0, x);
      Head(i0, x + 1) == Lower(i, x) && Out(Joined(b1, i, x), Lower(i, x), x + 1) && Grown(b0, Joined(b1, i, x), i0, x0, x + 1)
  {
    hide Head, Pow2, Buddy;
    var i := Head(i0, x);
    var b2 := Joined(b1, i, x);
    HeadOfHead(i0, x, x + 1);
    HeadOfHead(i0, x, x);
    JoinIsHalving(b1, i, x);
    forall p: nat
      ensures FreePage(b2, p) <==> FreePage(b0, p) && Head(p, x + 1) != Lower(i, x)
      ensures Head(p, x0) == i0 ==> Head(p, x + 1) == Lower(i, x)
      ensures Head(p, x + 1) == Lower(i, x) ==> Head(p, x0) == i0 || FreePage(b0, p)
    {
      JoinPage(b1, lost, lo, n, i, x, p);
    }
    var b := Buddy(i, x);
    assert In(b0, b, x) && forall y: nat :: !Out(b0, b, y);
    forall g: nat, y: nat ensures Out(b2, g, y) <==> (Out(b0, g, y) && g != i0) || (g == Lower(i, x) && y == x + 1) {
      assert Out(b1, g, y) <==> (Out(b0, g, y) && g != i0) || (g == i && y == x);
    }
    forall g: nat, y: nat | y >= x + 1 ensures In(b2, g, y) <==> In(b0, g, y) {
      assert In(b1, g, y) <==> In(b0, g, y);
    }
  }

  lemma TopStep(b0: Blocks, b1: Blocks, i0: nat, x0: nat)
    requires Apart(b1) && x0 <= MAX_ORDER && Grown(b0, b1, i0, x0, MAX_ORDER)
    requires var i := Head(i0, MAX_ORDER); Out(b1, i, MAX_ORDER) && In(b1, Buddy(i, MAX_ORDER), MAX_ORDER)
    ensures var i := Head(i0, MAX_ORDER); var l := Lower(i, MAX_ORDER);
      && Head(i0, MAX_ORDER + 1) == l && Upper(i, MAX_ORDER) == l + Pow2(MAX_ORDER)
      && Out(TopJoined(b1, i), l, MAX_ORDER) && ToppedOut(b0, TopJoined(b1, i), i0, x0)
  {
    hide Head, Pow2, Buddy, FreePage, Apart, Grown, In, Out, TopJoined;
    var i := Head(i0, MAX_ORDER);
    TopHalves(i0);
    TopOut(b0, b1, i0, x0, Lower(i, MAX_ORDER), MAX_ORDER);
    forall p: nat ensures TopPageStep(b0, TopJoined(b1, i), i0, x0, p) {
      TopPages(b0, b1, i0, x0, p);
    }
    forall g: nat, y: nat
      ensures Out(TopJoined(b1, i), g, y) <==> (Out(b0, g, y) && g != i0) || (g == Lower(i, MAX_ORDER) && y == MAX_ORDER)
      ensures Lower(i, MAX_ORDER) != i0 ==> !Out(b0, Lower(i, MAX_ORDER), y)
    {
      TopOut(b0, b1, i0, x0, g, y);
    }
  }

  lemma TopHalves(i0: nat)
    ensures var i := Head(i0, MAX_ORDER);
      && Head(i0, MAX_ORDER + 1) == Lower(i, MAX_ORDER) && Upper(i, MAX_ORDER) == Lower(i, MAX_ORDER) + Pow2(MAX_ORDER)
  {
    hide Head, Pow2, Buddy;
    HeadOfHead(i0, MAX_ORDER, MAX_ORDER + 1);
    HeadOfHead(i0, MAX_ORDER, MAX_ORDER);
    BuddyHalves(Head(i0, MAX_ORDER), MAX_ORDER);
  }

  lemma TopPages(b0: Blocks, b1: Blocks, i0: nat, x0: nat, p: nat)
    requires Apart(b1) && x0 <= MAX_ORDER && Grown(b0, b1, i0, x0, MAX_ORDER)
    requires var i := Head(i0, MAX_ORDER); Out(b1, i, MAX_ORDER) && In(b1, Buddy(i, MAX_ORDER), MAX_ORDER)
    ensures TopPageStep(b0, TopJoined(b1, Head(i0, MAX_ORDER)), i0, x0, p)
  {
    hide Head, Pow2, Buddy, FreePage, Apart;
    TopHalves(i0);
    TopPage(b1, Head(i0, MAX_ORDER), p);
  }

  lemma TopOut(b0: Blocks, b1: Blocks, i0: nat, x0: nat, g: nat, y: nat)
    requires Grown(b0, b1, i0, x0, MAX_ORDER)
    requires var i := Head(i0, MAX_ORDER); Out(b1, i, MAX_ORDER) && In(b1, Buddy(i, MAX_ORDER), MAX_ORDER)
    ensures var i := Head(i0, MAX_ORDER);
      && (Out(TopJoined(b1, i), g, y) <==> (Out(b0, g, y) && g != i0) || (g == Lower(i, MAX_ORDER) && y == MAX_ORDER))
      && (Lower(i, MAX_ORDER) != i0 ==> !Out(b0, Lower(i, MAX_ORDER), y))
  {
    hide Head, Pow2, Buddy, FreePage;
    var i := Head(i0, MAX_ORDER);
    assert In(b0, Buddy(i, MAX_ORDER), MAX_ORDER);
    assert Out(b1, g, y) <==> (Out(b0, g, y) && g != i0) || (g == i && y == MAX_ORDER);
  }

  lemma TopPage(bs: Blocks, i: nat, p: nat)
    requires Apart(bs) && Out(bs, i, MAX_ORDER) && In(bs, Buddy(i, MAX_ORDER), MAX_ORDER)
    ensures FreePage(TopJoined(bs, i), p) <==> FreePage(bs, p) && Head(p, MAX_ORDER) != Lower(i, MAX_ORDER) && Head(p, MAX_ORDER) != Upper(i, MAX_ORDER)
    ensures Head(p, MAX_ORDER) == Buddy(i, MAX_ORDER) ==> FreePage(bs, p)
  {
    hide Head, Pow2, Buddy;
    var l, u, b := Lower(i, MAX_ORDER), Upper(i, MAX_ORDER), Buddy(i, MAX_ORDER);
    ForgetAt(bs, u, MAX_ORDER, p);
    FlipPage(bs - {u}, l, MAX_ORDER, false, p);
    assert Head(p, MAX_ORDER) == b ==> At(bs, p, MAX_ORDER);
  }

  /** From `b0` to `bs` the block `i0` of order `x0` in hand has grown to order `x`. */
  ghost predicate Grown(b0: Blocks, bs: Blocks, i0: nat, x0: nat, x: nat) {
    var i := Head(i0, x);
    && (forall p: nat :: Head(p, x0) == i0 ==> Head(p, x) == i)
    && (forall p: nat :: Head(p, x) == i ==> Head(p, x0) == i0 || FreePage(b0, p))
    && (forall p: nat :: FreePage(bs, p) <==> FreePage(b0, p) && Head(p, x) != i)
    && (forall g: nat, y: nat :: Out(bs, g, y) <==> (Out(b0, g, y) && g != i0) || (g == i && y == x))
    && (forall g: nat, y: nat :: y >= x ==> (In(bs, g, y) <==> In(b0, g, y)))
    && (forall y: nat :: i != i0 ==> !Out(b0, i, y))
  }

  /** From `b0` to `bs` the block `i0` in hand has met a free block at the top order. */
  ghost predicate ToppedOut(b0: Blocks, bs: Blocks, i0: nat, x0: nat) {
    var l := Head(i0, MAX_ORDER + 1);
    && (forall p: nat :: TopPageStep(b0, bs, i0, x0, p))
    && (forall g: nat, y: nat :: Out(bs, g, y) <==> (Out(b0, g, y) && g != i0) || (g == l && y == MAX_ORDER))
    && (forall y: nat :: l != i0 ==> !Out(b0, l, y))
  }

  /** The two top-order blocks hold the freed pages and otherwise pages that were free, and none of
      them is free now. */
  ghost predicate TopPageStep(b0: Blocks, bs: Blocks, i0: nat, x0: nat, p: nat) {
    var l := Head(i0, MAX_ORDER + 1);
    var top := Head(p, MAX_ORDER) == l || Head(p, MAX_ORDER) == l + Pow2(MAX_ORDER);
    && (Head(p, x0) == i0 ==> top)
    && (top ==> Head(p, x0) == i0 || FreePage(b0, p))
    && (FreePage(bs, p) <==> FreePage(b0, p) && !top)
  }

  lemma StartGrown(b0: Blocks, i0: nat, x0: nat)
    requires Out(b0, i0, x0) && Aligned(i0, x0) && Apart(b0) && x0 <= MAX_ORDER
    ensures Grown(b0, b0, i0, x0, x0)
  {
    hide Head, Pow2, Buddy;
    assert forall p: nat :: Head(p, x0) == i0 ==> At(b0, p, x0);
  }

  lemma JoinUnmarked(bs: Blocks, i: nat, x: nat)
    requires Coalesced(bs) && Out(bs, i, x) && In(bs, Buddy(i, x), x)
    ensures Joined(bs[Buddy(i, x) := Block(x, false)], i, x) == Joined(bs, i, x) && Coalesced(Joined(bs, i, x))
  {
  }

  lemma TopJoinUnmarked(bs: Blocks, i: nat)
    requires Out(bs, i, MAX_ORDER) && In(bs, Buddy(i, MAX_ORDER), MAX_ORDER)
    ensures bs[Buddy(i, MAX_ORDER) := Block(MAX_ORDER, false)] - {Upper(i, MAX_ORDER)} == TopJoined(bs, i)
  {
  }

  lemma ForgetCoalesced(bs: Blocks, u: nat)
    requires Coalesced(bs)
    ensures Coalesced(bs - {u})
  {
  }

  /** From `b0` to `bs` exactly the free run of order `k` at `h` was handed out. */
  ghost predicate Carved(b0: Blocks, bs: Blocks, h: nat, k: nat) {
    && FreeRun(b0, h, k)
    && (forall p: nat :: FreePage(bs, p) <==> FreePage(b0, p) && Head(p, k) != h)
    && (forall g: nat, y: nat :: Out(bs, g, y) <==> Out(b0, g, y) || (g == h && y == k))
    && forall y: nat :: !Out(b0, h, y)
  }

  /** At `h` starts a free block, of the least order from `k` on that a free block has. */
  ghost predicate SmallestAt(bs: Blocks, h: nat, k: nat) {
    h in bs && bs[h].free && k <= bs[h].order && forall g :: g in bs && bs[g].free && k <= bs[g].order ==> bs[h].order <= bs[g].order
  }

  lemma SmallestTaken(s: State, bs: Blocks, lost: set<nat>, lo: nat, n: nat, h: nat, x: nat, k: nat)
    requires |s.lists| == |s.avail| == MAX_ORDER + 1 && Listed(s, bs) && Tiling(bs, lost, lo, n) && In(bs, h, x) && k <= x
    requires x <= MAX_ORDER && forall y :: k <= y < x ==> s.lists[y] == []
    ensures SmallestAt(bs, h, k)
  {
    hide Head, Pow2, Buddy;
    assert forall g :: g in bs && bs[g].free && bs[g].order <= MAX_ORDER ==> g in s.lists[bs[g].order];
  }

  lemma TakenCarved(bs: Blocks, lost: set<nat>, lo: nat, n: nat, h: nat, x: nat)
    requires Tiling(bs, lost, lo, n) && In(bs, h, x)
    ensures Carved(bs, bs[h := Block(x, false)], h, x)
  {
    hide Head, Pow2, Buddy;
    FlipStep(bs, lost, lo, n, h, x, false);
    BlockHasRun(bs, h, x, x);
  }

  lemma PushedCoalesced(bs: Blocks, lost: set<nat>, lo: nat, n: nat, i: nat, x: nat)
    requires Tiling(bs, lost, lo, n) && Coalesced(bs) && Out(bs, i, x)
    requires x < MAX_ORDER ==> !In(bs, Buddy(i, x), x)
    ensures Coalesced(bs[i := Block(x, true)])
  {
    hide Head, Pow2, Buddy;
    var bs' := bs[i := Block(x, true)];
    forall h | h in bs' && bs'[h].free && bs'[h].order < MAX_ORDER
      ensures var b := Buddy(h, bs'[h].order); !(b in bs' && bs'[b] == bs'[h])
    {
      BuddyHalves(h, bs'[h].order);
    }
  }

  lemma BlockInside(bs: Blocks, lost: set<nat>, lo: nat, n: nat, h: nat)
    requires Tiling(bs, lost, lo, n) && h in bs
    ensures lo <= h
  {
    assert Fits(h, bs[h].order, lo, n);
  }

  lemma OrderedRecords(s: State, n: nat, bs: Blocks, h: nat, k: nat)
    requires Records(s, n, bs, {h}, {h}) && Out(bs, h, k) && h < n
    ensures Records(s.(order := s.order[h := k]), n, bs, {}, {h})
  {
  }

  /** With all lists from order `k` on empty, no aligned run of 2^k pages is free. */
  lemma NothingFits(s: State, n: nat, bs: Blocks, lost: set<nat>, lo: nat, k: nat)
    requires Tiling(bs, lost, lo, n) && Coalesced(bs) && Records(s, n, bs, {}, {}) && k <= MAX_ORDER
    requires forall y :: k <= y <= MAX_ORDER ==> s.lists[y] == []
    ensures !exists a: nat :: FreeRun(bs, a, k)
  {
    hide Head, Pow2, Buddy, Shr;
    if a: nat :| FreeRun(bs, a, k) {
      var y := FreeRunInOneBlock(bs, lost, lo, n, a, k);
      assert false;
    }
  }

  /** One split of the block in hand keeps account of the pages taken so far. */
  lemma SplitLoopStep(b0: Blocks, b1: Blocks, lost: set<nat>, lo: nat, n: nat, h: nat, x: nat)
    requires Tiling(b1, lost, lo, n) && x < MAX_ORDER && Out(b1, h, x + 1) && Buddy(h, x) !in b1
    requires Carved(b0, b1, h, x + 1)
    ensures Carved(b0, Split(b1, h, x)[Buddy(h, x) := Block(x, true)], h, x)
  {
    hide Head, Pow2, Buddy;
    var b, b2 := Buddy(h, x), Split(b1, h, x)[Buddy(h, x) := Block(x, true)];
    AlignedDown(h, x);
    BuddyHalves(h, x);
    forall p: nat ensures FreePage(b2, p) <==> FreePage(b0, p) && Head(p, x) != h
                  ensures Head(p, x) == h ==> FreePage(b0, p) {
      SplitPage(b1, lost, lo, n, h, x, p);
      HeadStep(p, h, x);
    }
  }

  lemma ForgetRecords(s: State, n: nat, bs: Blocks, l: nat, u: nat)
    requires Records(s, n, bs, {l, u}, {}) && u in bs && !bs[u].free
    ensures Records(s, n, bs - {u}, {l}, {})
  {
  }

  /** The test of `free_frames` for a free buddy is right, whatever stale bits there are. */
  lemma BuddyTest(s: State, n: nat, bs: Blocks, lost: set<nat>, lo: nat, i: nat, x: nat)
    requires Records(s, n, bs, {i}, {}) && Tiling(bs, lost, lo, n) && x <= MAX_ORDER && Aligned(i, x)
    ensures var b := Buddy(i, x);
      && (b < n && s.order[b] == x ==> Shr(b, x) < |s.bits[x]|)
      && (b < n && s.order[b] == x && s.bits[x][Shr(b, x)] <==> In(bs, b, x))
  {
    hide Head, Pow2, Buddy, Shr;
    BuddyHalves(i, x);
    var b := Buddy(i, x);
    if b < n {
      assert MarkedAt(s, n, b);
    }
    assert b in s.lists[x] <==> In(bs, b, x);
  }

  /** Entering the merged block into its list completes the account of `free_frames`. */
  lemma FreedStep(b0: Blocks, l0: set<nat>, b1: Blocks, lost: set<nat>, lo: nat, n: nat, i0: nat, x0: nat, x: nat)
    requires Tiling(b1, lost, lo, n) && x0 <= x <= MAX_ORDER + 1 && x == MergeOrder(b0, i0, x0)
    requires Tiling(b0, l0, lo, n) && Out(b0, i0, x0) && Progress(b0, l0, b1, lost, i0, x0, x)
    ensures var o := if x <= MAX_ORDER then x else MAX_ORDER;
      Freed(b0, l0, b1[Head(i0, x) := Block(o, true)], lost, i0, x0)
  {
    hide Head, Pow2, Buddy, MergeOrder, Tiling, Pages, Grown, ToppedOut, Freed;
    if x <= MAX_ORDER {
      FreedBelow(b0, l0, b1, lost, lo, n, i0, x0, x);
    } else {
      FreedTop(b0, l0, b1, lost, lo, n, i0, x0);
    }
  }

  /** The merging stops at order `x`. */
  lemma FreedBelow(b0: Blocks, l0: set<nat>, b1: Blocks, lost: set<nat>, lo: nat, n: nat, i0: nat, x0: nat, x: nat)
    requires Tiling(b1, lost, lo, n) && x <= MAX_ORDER && x == MergeOrder(b0, i0, x0)
    requires Out(b1, Head(i0, x), x) && Grown(b0, b1, i0, x0, x) && lost == l0
    ensures Freed(b0, l0, b1[Head(i0, x) := Block(x, true)], lost, i0, x0)
  {
    hide Head, Pow2, Buddy, MergeOrder, FreePage, Tiling, Pages;
    var h := Head(i0, x);
    var b2 := b1[h := Block(x, true)];
    FlipStep(b1, lost, lo, n, h, x, true);
    forall p: nat ensures FreePage(b2, p) <==> FreePage(b0, p) || Head(p, x0) == i0 {
      assert FreePage(b2, p) <==> FreePage(b1, p) || Head(p, x) == h;
    }
    forall g: nat, y: nat ensures Out(b2, g, y) <==> Out(b0, g, y) && g != i0 {
      assert Out(b1, g, y) <==> (Out(b0, g, y) && g != i0) || (g == h && y == x);
    }
  }

  /** The merging passes the top order. */
  lemma FreedTop(b0: Blocks, l0: set<nat>, b1: Blocks, lost: set<nat>, lo: nat, n: nat, i0: nat, x0: nat)
    requires Tiling(b1, lost, lo, n) && MergeOrder(b0, i0, x0) > MAX_ORDER && Tiling(b0, l0, lo, n) && Out(b0, i0, x0)
    requires Out(b1, Head(i0, MAX_ORDER + 1), MAX_ORDER) && ToppedOut(b0, b1, i0, x0)
    requires lost == l0 + Pages(Head(i0, MAX_ORDER + 1) + Pow2(MAX_ORDER), MAX_ORDER)
    ensures Freed(b0, l0, b1[Head(i0, MAX_ORDER + 1) := Block(MAX_ORDER, true)], lost, i0, x0)
  {
    hide Head, Pow2, Buddy, MergeOrder, FreePage, Tiling, Pages;
    var h := Head(i0, MAX_ORDER + 1);
    var u, b2 := h + Pow2(MAX_ORDER), b1[h := Block(MAX_ORDER, true)];
    FlipStep(b1, lost, lo, n, h, MAX_ORDER, true);
    forall p: nat
      ensures p in Pages(u, MAX_ORDER) ==> p !in l0 && (FreePage(b0, p) || Head(p, x0) == i0)
      ensures FreePage(b2, p) <==> (FreePage(b0, p) || Head(p, x0) == i0) && p !in Pages(u, MAX_ORDER)
    {
      FreedTopPage(b0, l0, b1, lo, n, i0, x0, p);
    }
    assert l0 !! Pages(u, MAX_ORDER);
    forall g: nat, y: nat ensures Out(b2, g, y) <==> Out(b0, g, y) && g != i0 {
      assert Out(b1, g, y) <==> (Out(b0, g, y) && g != i0) || (g == h && y == MAX_ORDER);
    }
  }

  lemma FreedTopPage(b0: Blocks, l0: set<nat>, b1: Blocks, lo: nat, n: nat, i0: nat, x0: nat, p: nat)
    requires Tiling(b0, l0, lo, n) && Out(b0, i0, x0) && ToppedOut(b0, b1, i0, x0)
    ensures LastPageStep(b0, l0, b1, i0, x0, p)
    ensures Head(i0, MAX_ORDER + 1) != Head(i0, MAX_ORDER + 1) + Pow2(MAX_ORDER)
  {
    hide Head, Pow2, Buddy, FreePage, Tiling, Pages;
    TopPagesAre(i0, p);
    if p in l0 { LostIsNowhere(b0, l0, lo, n, i0, x0, p); }
    assert TopPageStep(b0, b1, i0, x0, p);
  }

  /** Where a page is when two blocks of the top order have met. */
  ghost predicate LastPageStep(b0: Blocks, l0: set<nat>, b1: Blocks, i0: nat, x0: nat, p: nat) {
    var l := Head(i0, MAX_ORDER + 1);
    var u := l + Pow2(MAX_ORDER);
    && (p in Pages(u, MAX_ORDER) <==> Head(p, MAX_ORDER) == u)
    && (p in l0 ==> !FreePage(b0, p) && Head(p, x0) != i0)
    && TopPageStep(b0, b1, i0, x0, p)
  }

  lemma LostIsNowhere(bs: Blocks, lost: set<nat>, lo: nat, n: nat, i: nat, x: nat, p: nat)
    requires Tiling(bs, lost, lo, n) && Out(bs, i, x) && p in lost
    ensures !FreePage(bs, p) && Head(p, x) != i
  {
    hide Head, Pow2;
    assert Head(p, x) == i ==> At(bs, p, x);
    assert Fits(i, x, lo, n);
  }

  lemma TopPagesAre(i0: nat, p: nat)
    ensures var u := Head(i0, MAX_ORDER + 1) + Pow2(MAX_ORDER);
      p in Pages(u, MAX_ORDER) <==> Head(p, MAX_ORDER) == u
  {
    hide Head, Pow2, Buddy;
    TopHalves(i0);
    BuddyHalves(Head(i0, MAX_ORDER), MAX_ORDER) by { HeadOfHead(i0, MAX_ORDER, MAX_ORDER); }
    HeadInRange(p, Head(i0, MAX_ORDER + 1) + Pow2(MAX_ORDER), MAX_ORDER) by { HeadOfHead(i0, MAX_ORDER, MAX_ORDER); }
  }
}
