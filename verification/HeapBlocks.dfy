/**
 The blocks of the kernel heap, on values: how blocks tile the heap, and what cutting, joining,
 carving and coalescing do to them.
 */
module HeapBlocks {

  const HEAP_BASE: int := 0xD000_0000
  const HEAP_INIT_SIZE: int := 0x10_0000
  const PAGE: int := 0x1000
  const HEADER: int := 20
  const FOOTER: int := 8
  const MIN_BLOCK_SIZE: int := 8
  /** The least size of a block: header, payload and footer. */
  const MIN_TOTAL: int := HEADER + FOOTER + MIN_BLOCK_SIZE
  const MIN_SREL_SIZE: int := 0x10_0000

  datatype Blk = Blk(size: int, used: bool)

  /** Blocks by the address of their header. */
  type Blocks = map<int, Blk>

  function End(bs: Blocks, a: int): int
    requires a in bs
  {
    a + bs[a].size
  }

  ghost predicate Within(bs: Blocks, a: int, x: int) {
    a in bs && a <= x < End(bs, a)
  }

  /** Address `x` belongs to some block. */
  ghost predicate Owned(bs: Blocks, x: int) {
    exists a :: Within(bs, a, x)
  }

  ghost predicate Sound(a: int, b: Blk, end: int) {
    && HEAP_BASE <= a && a + b.size <= end && MIN_TOTAL <= b.size
    && a % 4 == 0 && b.size % 4 == 0
  }

  ghost predicate Apart(bs: Blocks) {
    forall a, b :: a in bs && b in bs && a < b ==> End(bs, a) <= b
  }

  /** The blocks tile the heap: every address below `end` is in exactly one block. */
  ghost predicate Tiling(bs: Blocks, end: int) {
    && (forall a :: a in bs ==> Sound(a, bs[a], end))
    && Apart(bs)
    && (forall x :: HEAP_BASE <= x < end ==> Owned(bs, x))
  }

  /** No two neighbouring blocks are both unused. */
  ghost predicate Coalesced(bs: Blocks) {
    forall a :: a in bs && !bs[a].used && End(bs, a) in bs ==> bs[End(bs, a)].used
  }

  /** What follows a block is the next block, or the end of the heap. */
  lemma NextBlock(bs: Blocks, end: int, a: int)
    requires Tiling(bs, end) && a in bs
    ensures End(bs, a) == end || (End(bs, a) < end && End(bs, a) in bs)
    ensures end !in bs && End(bs, a) != a
  {
    assert Sound(a, bs[a], end);
    assert end in bs ==> Sound(end, bs[end], end);
    var x := End(bs, a);
    if x < end {
      assert Owned(bs, x);
      var b :| Within(bs, b, x);
      assert b == x;
    }
  }

  /** What precedes a block is a block, or the start of the heap. */
  lemma PreviousBlock(bs: Blocks, end: int, a: int) returns (l: int)
    requires Tiling(bs, end) && a in bs && a != HEAP_BASE
    ensures l in bs && End(bs, l) == a && l + MIN_TOTAL <= a
  {
    assert Owned(bs, a - 1);
    l :| Within(bs, l, a - 1);
  }

  // ---- Cutting and joining ------------------------------------------------------

  /** Block `a` cut after `s` bytes; the two parts get the given states. */
  function Cut(bs: Blocks, a: int, s: int, low: bool, high: bool): Blocks
    requires a in bs
  {
    bs[a := Blk(s, low)][a + s := Blk(bs[a].size - s, high)]
  }

  /** Block `a` joined with the block that follows it. */
  function Join(bs: Blocks, a: int, used: bool): Blocks
    requires a in bs && End(bs, a) in bs
  {
    (bs - {End(bs, a)})[a := Blk(bs[a].size + bs[End(bs, a)].size, used)]
  }

  lemma CutTiles(bs: Blocks, end: int, a: int, s: int, low: bool, high: bool)
    requires Tiling(bs, end) && a in bs && s % 4 == 0 && MIN_TOTAL <= s && s + MIN_TOTAL <= bs[a].size
    ensures a + s !in bs && Tiling(Cut(bs, a, s, low, high), end)
  {
    hide Owned, Sound, Apart;
    CutApart(bs, end, a, s, low, high);
    var cs := Cut(bs, a, s, low, high);
    forall x | HEAP_BASE <= x < end ensures Owned(cs, x) {
      CutOwned(bs, a, s, low, high, x);
    }
  }

  lemma CutApart(bs: Blocks, end: int, a: int, s: int, low: bool, high: bool)
    requires Tiling(bs, end) && a in bs && s % 4 == 0 && MIN_TOTAL <= s && s + MIN_TOTAL <= bs[a].size
    ensures var cs := Cut(bs, a, s, low, high);
      a + s !in bs && Apart(cs) && forall x :: x in cs ==> Sound(x, cs[x], end)
  {
    hide Owned;
    var cs := Cut(bs, a, s, low, high);
    assert Sound(a, bs[a], end);
    assert a + s !in bs;
    forall x | x in cs ensures Sound(x, cs[x], end) {
      assert x in bs ==> Sound(x, bs[x], end);
    }
    forall x, y | x in cs && y in cs && x < y ensures End(cs, x) <= y {
      assert x != a + s ==> x in bs && End(cs, x) <= End(bs, x);
      assert y != a + s ==> y in bs;
    }
  }

  lemma CutOwned(bs: Blocks, a: int, s: int, low: bool, high: bool, x: int)
    requires a in bs && a + s !in bs && Owned(bs, x)
    ensures Owned(Cut(bs, a, s, low, high), x)
  {
    var cs := Cut(bs, a, s, low, high);
    var b :| Within(bs, b, x);
    assert Within(cs, if b != a then b else if x < a + s then a else a + s, x);
  }

  lemma JoinTiles(bs: Blocks, end: int, a: int, used: bool)
    requires Tiling(bs, end) && a in bs && End(bs, a) in bs
    ensures Tiling(Join(bs, a, used), end)
  {
    var r, bs' := End(bs, a), Join(bs, a, used);
    forall x | HEAP_BASE <= x < end ensures Owned(bs', x) {
      assert Owned(bs, x);
      var b :| Within(bs, b, x);
      assert Within(bs', b, x) || Within(bs', a, x);
    }
  }

  lemma MarkTiles(bs: Blocks, end: int, a: int, used: bool)
    requires Tiling(bs, end) && a in bs
    ensures Tiling(bs[a := Blk(bs[a].size, used)], end)
  {
    var bs' := bs[a := Blk(bs[a].size, used)];
    forall x | HEAP_BASE <= x < end ensures Owned(bs', x) {
      assert Owned(bs, x);
      var b :| Within(bs, b, x);
      assert Within(bs', b, x);
    }
  }

  /** The heap grows by a new last block, or the last block grows. */
  lemma GrowTiles(bs: Blocks, end: int, a: int, inc: int)
    requires Tiling(bs, end) && HEAP_BASE <= end && end % 4 == 0 && inc % 4 == 0 && MIN_TOTAL <= inc
    requires a == end || (a in bs && End(bs, a) == end)
    ensures a == end ==> a !in bs
    ensures Tiling(bs[a := Blk(end - a + inc, true)], end + inc)
  {
    hide Owned, Sound, Apart;
    GrowApart(bs, end, a, inc);
    var cs := bs[a := Blk(end - a + inc, true)];
    forall x | HEAP_BASE <= x < end + inc ensures Owned(cs, x) {
      GrowOwned(bs, end, a, inc, x);
    }
  }

  lemma GrowApart(bs: Blocks, end: int, a: int, inc: int)
    requires Tiling(bs, end) && HEAP_BASE <= end && end % 4 == 0 && inc % 4 == 0 && MIN_TOTAL <= inc
    requires a == end || (a in bs && End(bs, a) == end)
    ensures a <= end && (a == end ==> a !in bs)
    ensures var cs := bs[a := Blk(end - a + inc, true)]; Apart(cs) && forall x :: x in cs ==> Sound(x, cs[x], end + inc)
  {
    hide Owned;
    var cs := bs[a := Blk(end - a + inc, true)];
    assert a in bs ==> Sound(a, bs[a], end);
    forall x | x in cs ensures Sound(x, cs[x], end + inc) {
      assert x in bs ==> Sound(x, bs[x], end);
    }
    forall x, y | x in cs && y in cs && x < y ensures End(cs, x) <= y {
      assert x in bs ==> Sound(x, bs[x], end);
      assert y in bs ==> Sound(y, bs[y], end);
    }
  }

  lemma GrowOwned(bs: Blocks, end: int, a: int, inc: int, x: int)
    requires x < end ==> Owned(bs, x)
    requires x < end + inc && 0 < inc && a <= end && (a == end || (a in bs && End(bs, a) == end)) && (a == end ==> a !in bs)
    ensures Owned(bs[a := Blk(end - a + inc, true)], x)
  {
    var cs := bs[a := Blk(end - a + inc, true)];
    if x < end {
      var b :| Within(bs, b, x);
      assert Within(cs, b, x);
    } else {
      assert Within(cs, a, x);
    }
  }

  /** The heap shrinks inside its last block, or gives it up. */
  lemma ShrinkTiles(bs: Blocks, end: int, a: int, size: int)
    requires Tiling(bs, end) && a in bs && End(bs, a) == end
    requires size % 4 == 0 && MIN_TOTAL <= size <= bs[a].size
    ensures Tiling(bs[a := Blk(size, true)], a + size)
    ensures Tiling(bs - {a}, a)
  {
    var bs', bs'' := bs[a := Blk(size, true)], bs - {a};
    forall x | HEAP_BASE <= x < a + size ensures Owned(bs', x) {
      assert Owned(bs, x);
      var b :| Within(bs, b, x);
      assert Within(bs', b, x);
    }
    forall x | HEAP_BASE <= x < a ensures Owned(bs'', x) {
      assert Owned(bs, x);
      var b :| Within(bs, b, x);
      assert Within(bs'', b, x);
    }
  }

  // ---- Neighbours ----------------------------------------------------------------

  /** The blocks on both sides of `a`, where there are any, are used. */
  ghost predicate RightUsed(bs: Blocks, a: int)
    requires a in bs
  {
    End(bs, a) in bs ==> bs[End(bs, a)].used
  }

  ghost predicate LeftUsed(bs: Blocks, a: int) {
    forall l :: l in bs && End(bs, l) == a ==> bs[l].used
  }

  lemma UnusedCoalesced(bs: Blocks, a: int)
    requires Coalesced(bs) && a in bs && bs[a].size > 0 && RightUsed(bs, a) && LeftUsed(bs, a)
    ensures Coalesced(bs[a := Blk(bs[a].size, false)])
  {
  }

  lemma UsedCoalesced(bs: Blocks, a: int)
    requires Coalesced(bs) && a in bs && !bs[a].used && bs[a].size > 0
    ensures Coalesced(bs[a := Blk(bs[a].size, true)])
    ensures var bs' := bs[a := Blk(bs[a].size, true)]; RightUsed(bs', a) && LeftUsed(bs', a)
  {
    var bs' := bs[a := Blk(bs[a].size, true)];
    assert forall x :: x in bs ==> End(bs', x) == End(bs, x);
  }

  /** The used blocks and the end of the heap determine all blocks: every gap is one unused block. */
  lemma UsedDetermine(bs: Blocks, cs: Blocks, end: int)
    requires Tiling(bs, end) && Coalesced(bs) && Tiling(cs, end) && Coalesced(cs) && SameUsed(bs, cs)
    ensures bs == cs
  {
    forall a | a in bs ensures a in cs && cs[a] == bs[a] {
      Recurs(bs, cs, end, a);
    }
    forall a | a in cs ensures a in bs && bs[a] == cs[a] {
      Recurs(cs, bs, end, a);
    }
  }

  ghost predicate SameUsed(bs: Blocks, cs: Blocks) {
    forall a :: (a in bs && bs[a].used) || (a in cs && cs[a].used) ==> a in bs && a in cs && bs[a] == cs[a]
  }

  /** A block of one tiling is a block of the other. */
  lemma Recurs(bs: Blocks, cs: Blocks, end: int, a: int)
    requires Tiling(bs, end) && Coalesced(bs) && Tiling(cs, end) && Coalesced(cs) && SameUsed(bs, cs) && a in bs
    ensures a in cs && cs[a] == bs[a]
  {
    if !bs[a].used {
      StartRecurs(bs, cs, end, a);
      NextBlock(bs, end, a);
      NextBlock(cs, end, a);
    }
  }

  lemma StartRecurs(bs: Blocks, cs: Blocks, end: int, a: int)
    requires Tiling(bs, end) && Coalesced(bs) && Tiling(cs, end) && SameUsed(bs, cs) && a in bs && !bs[a].used
    ensures a in cs && !cs[a].used
  {
    assert Owned(cs, a);
    var b :| Within(cs, b, a);
    assert !cs[b].used;
    if b != a {
      var l := PreviousBlock(bs, end, a);
      assert false;
    }
  }

  /** A block in hand cut in two, both in hand. */
  lemma CutInHand(bs: Blocks, end: int, a: int, s: int)
    requires Tiling(bs, end) && Coalesced(bs) && a in bs && bs[a].used
    requires s % 4 == 0 && MIN_TOTAL <= s && s + MIN_TOTAL <= bs[a].size
    ensures a + s !in bs
    ensures var cs := Cut(bs, a, s, true, true);
      && Tiling(cs, end) && Coalesced(cs) && RightUsed(cs, a) && LeftUsed(cs, a + s)
      && (LeftUsed(bs, a) ==> LeftUsed(cs, a)) && (RightUsed(bs, a) ==> RightUsed(cs, a + s))
  {
    CutTiles(bs, end, a, s, true, true);
    CutNeighbours(bs, end, a, s);
  }

  /** The neighbours of the two parts, and of everything else. */
  lemma CutNeighbours(bs: Blocks, end: int, a: int, s: int)
    requires Tiling(bs, end) && a in bs && bs[a].used && a + s !in bs && MIN_TOTAL <= s && s + MIN_TOTAL <= bs[a].size
    ensures var cs := Cut(bs, a, s, true, true);
      && (Coalesced(bs) ==> Coalesced(cs)) && RightUsed(cs, a) && LeftUsed(cs, a + s)
      && (LeftUsed(bs, a) ==> LeftUsed(cs, a)) && (RightUsed(bs, a) ==> RightUsed(cs, a + s))
  {
    var cs := Cut(bs, a, s, true, true);
    CutEnds(bs, end, a, s);
    hide Tiling;
    assert cs[a] == Blk(s, true) && cs[a + s] == Blk(bs[a].size - s, true) && End(cs, a + s) == End(bs, a);
    if LeftUsed(bs, a) {
      forall l | l in cs && End(cs, l) == a ensures cs[l].used {}
    }
  }

  lemma CutEnds(bs: Blocks, end: int, a: int, s: int)
    requires Tiling(bs, end) && a in bs && MIN_TOTAL <= s && s + MIN_TOTAL <= bs[a].size
    ensures var cs := Cut(bs, a, s, true, true);
      forall x :: x in cs && x != a && x != a + s ==> x in bs && cs[x] == bs[x] && End(cs, x) == End(bs, x) && End(cs, x) != a + s
  {
    var cs := Cut(bs, a, s, true, true);
    assert Sound(a, bs[a], end);
    forall x | x in cs && x != a && x != a + s ensures x in bs && cs[x] == bs[x] && End(cs, x) == End(bs, x) && End(cs, x) != a + s {
      assert Sound(x, bs[x], end);
    }
  }

  /** The last block of the heap. */
  lemma LastBlock(bs: Blocks, end: int) returns (l: int)
    requires Tiling(bs, end) && HEAP_BASE < end
    ensures l in bs && End(bs, l) == end
  {
    assert Owned(bs, end - 1);
    l :| Within(bs, l, end - 1);
    assert Sound(l, bs[l], end);
  }

  /** Growing the heap by a block in hand, or growing the last block in hand. */
  lemma GrowBlocks(bs: Blocks, end: int, a: int, inc: int)
    requires Tiling(bs, end) && Coalesced(bs) && HEAP_BASE <= end && end % 4 == 0 && inc % 4 == 0 && MIN_TOTAL <= inc
    requires a == end || (a in bs && End(bs, a) == end && bs[a].used)
    requires LeftUsed(bs, a)
    ensures a == end ==> a !in bs
    ensures var cs := bs[a := Blk(end - a + inc, true)];
      Tiling(cs, end + inc) && Coalesced(cs) && RightUsed(cs, a) && LeftUsed(cs, a)
  {
    GrowTiles(bs, end, a, inc);
    assert forall x :: x in bs ==> Sound(x, bs[x], end) && End(bs, x) <= end;
    hide Tiling, Sound;
    GrowNeighbours(bs, end, a, inc);
  }

  lemma GrowNeighbours(bs: Blocks, end: int, a: int, inc: int)
    requires Coalesced(bs) && LeftUsed(bs, a) && 0 < inc && (a == end || a in bs) && (a in bs ==> bs[a].used)
    requires (forall x :: x in bs ==> x <= end && End(bs, x) <= end) && a <= end
    ensures var cs := bs[a := Blk(end - a + inc, true)]; Coalesced(cs) && RightUsed(cs, a) && LeftUsed(cs, a)
  {
    var cs := bs[a := Blk(end - a + inc, true)];
    assert forall x :: x in bs && x != a ==> cs[x] == bs[x] && End(cs, x) == End(bs, x);
    assert End(cs, a) == end + inc && end + inc !in cs;
  }

  /** Two neighbours in hand become one. */
  lemma JoinInHand(bs: Blocks, end: int, a: int)
    requires Tiling(bs, end) && Coalesced(bs) && a in bs && bs[a].used && End(bs, a) in bs && bs[End(bs, a)].used
    ensures var cs := Join(bs, a, true);
      && Tiling(cs, end) && Coalesced(cs)
      && (LeftUsed(bs, a) ==> LeftUsed(cs, a)) && (RightUsed(bs, End(bs, a)) ==> RightUsed(cs, a))
  {
    JoinTiles(bs, end, a, true);
    var r, cs := End(bs, a), Join(bs, a, true);
    assert Sound(a, bs[a], end) && Sound(r, bs[r], end);
    forall x | x in cs && x != a ensures x in bs && cs[x] == bs[x] && End(cs, x) == End(bs, x) && End(cs, x) != r {
      assert Sound(x, bs[x], end);
      PreviousDiffers(bs, end, x, a);
    }
    assert End(cs, a) == End(bs, r);
  }

  lemma PreviousDiffers(bs: Blocks, end: int, l: int, m: int)
    requires Tiling(bs, end) && l in bs && m in bs && l != m
    ensures End(bs, l) != End(bs, m)
  {
  }
}
