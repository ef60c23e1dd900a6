/**
 Allocating and freeing at once: which requests leave the heap as it was, told from the state before.
 */
module HeapRoundTrips {
  import opened Options
  import opened HeapBlocks
  import opened HeapMemory
  import opened KernelHeaps

  /** The gap that the block `h` leaves starts with the unused block that `h` was cut from. */
  lemma GapStart(b0: Blocks, b1: Blocks, end: int, h: int, a: int, e: int)
    requires Tiling(b0, end) && Coalesced(b0) && Tiling(b1, end) && Coalesced(b1) && Allotted(b0, b1, h) && Gap(b1, h, a, e)
    ensures a in b0 && !b0[a].used && a <= h
  {
    assert Sound(h, b1[h], end) && Sound(a, b1[a], end);
    assert Owned(b0, a);
    var x :| Within(b0, x, a);
    assert !b0[x].used;
    if x != a {
      var l := PreviousBlock(b1, end, a);
      assert false;
    }
  }

  /** And it ends where that block ended. */
  lemma GapEnd(b0: Blocks, b1: Blocks, end: int, h: int, a: int, e: int)
    requires Tiling(b0, end) && Coalesced(b0) && Tiling(b1, end) && Coalesced(b1) && Allotted(b0, b1, h) && Gap(b1, h, a, e)
    ensures a in b0 && !b0[a].used && End(b0, a) == e && a <= h < e
  {
    GapStart(b0, b1, end, h, a, e);
    var r := End(b1, h);
    assert Sound(h, b1[h], end) && Sound(a, b0[a], end) && (r in b1 ==> Sound(r, b1[r], end));
    NextBlock(b1, end, h);
    if r in b1 {
      NextBlock(b1, end, r);
    }
    assert e == end || (e in b1 && b1[e].used && e in b0 && b0[e] == b1[e]);
    NextBlock(b0, end, a);
    var x := End(b0, a);
    assert x <= e;
    assert x >= e;
  }

  /** The heap with its last part, from the block `g` on, as one unused block up to the new end. */
  lemma GrownTiles(b0: Blocks, end0: int, g: int, end1: int)
    requires Tiling(b0, end0) && Coalesced(b0) && HEAP_BASE < end0 && end0 % PAGE == 0 && end1 % PAGE == 0 && end0 + MIN_TOTAL <= end1
    requires g == LastFree(b0, end0)
    ensures var c0 := b0[g := Blk(end1 - g, false)]; Tiling(c0, end1) && Coalesced(c0)
  {
    hide Tiling, Coalesced, LastFree, LeftUsed, RightUsed;
    var l := LastBlock(b0, end0);
    Words(end0);
    Words(end1);
    if b0[l].used {
      OnlyLast(b0, end0, l);
      LastFreeIs(b0, end0, end0);
      GrownBy(b0, end0, g, end1);
    } else {
      LastFreeIs(b0, end0, l);
      TakeBlocks(b0, end0, l);
      var u := b0[l := Blk(b0[l].size, true)];
      GrownBy(u, end0, l, end1);
      assert u[l := Blk(end1 - l, false)] == b0[l := Blk(end1 - l, false)];
    }
  }

  lemma GrownBy(b0: Blocks, end0: int, g: int, end1: int)
    requires Tiling(b0, end0) && Coalesced(b0) && HEAP_BASE <= end0 && end0 % 4 == 0 && end1 % 4 == 0 && end0 + MIN_TOTAL <= end1
    requires LeftUsed(b0, g) && (g == end0 || (g in b0 && End(b0, g) == end0 && b0[g].used))
    ensures var c0 := b0[g := Blk(end1 - g, false)]; Tiling(c0, end1) && Coalesced(c0)
  {
    hide Tiling, Coalesced, LeftUsed, RightUsed;
    GrowBlocks(b0, end0, g, end1 - end0);
    var u := b0[g := Blk(end1 - g, true)];
    EnterBlocks(u, end1, g);
    assert u[g := Blk(end1 - g, false)] == b0[g := Blk(end1 - g, false)];
  }

  /** The request leaves the heap as it was when its block is freed at once. Served from the list: unless
      the block it is cut from ends with the heap and qualifies for release. From a grown heap: if the
      release goes back exactly to the old end. */
  ghost predicate Restores(list: seq<int>, bs: Blocks, end: int, need: nat, align: bool) {
    var g := Source(list, bs, end, need, align);
    if NoneServes(bs, need, align) then ReleasedEnd(g, NewEnd(bs, end, need, align)) == end
    else g + Size(bs, g) != end || ReleasedEnd(g, end) == end
  }

  /** The gap that freeing leaves is the block that the request was cut from. */
  lemma GapIsSource(b0: Blocks, end0: int, b1: Blocks, end1: int, h: int, g: int, a: int, e: int, grown: bool)
    requires Tiling(b0, end0) && Coalesced(b0) && HEAP_BASE < end0 && end0 % PAGE == 0 && Tiling(b1, end1) && Coalesced(b1)
    requires Allotted(b0, b1, h) && Gap(b1, h, a, e) && g <= h
    requires if grown then g == LastFree(b0, end0) && end1 % PAGE == 0 && end0 + MIN_TOTAL <= end1
      else end1 == end0 && g in b0 && !b0[g].used && h < End(b0, g)
    ensures a == g && e == if grown then end1 else End(b0, g)
  {
    var c0 := if grown then b0[g := Blk(end1 - g, false)] else b0;
    if grown {
      GrownTiles(b0, end0, g, end1);
      GrownAllotted(b0, b1, end0, end1, h, g);
    }
    GapEnd(c0, b1, end1, h, a, e);
    assert Sound(h, b1[h], end1) && Sound(g, c0[g], end1) && Sound(a, c0[a], end1);
  }

  lemma GrownAllotted(b0: Blocks, b1: Blocks, end0: int, end1: int, h: int, g: int)
    requires Tiling(b0, end0) && Allotted(b0, b1, h) && g == LastFree(b0, end0)
    ensures Allotted(b0[g := Blk(end1 - g, false)], b1, h)
  {
    assert end0 in b0 ==> Sound(end0, b0[end0], end0);
  }

  /** `alloc` and `free` at once: it is served unless the heap must grow for an aligned request and the place
      leaves too little room in front, and then every block is as before if and only if the state before
      says so. */
  method AllocFree(heap: KernelHeap, size: nat, align: bool) returns (served: bool)
    requires heap.Valid()
    modifies heap
    ensures served <==>
      !(align && NoneServes(old(heap.bs), Need(size), align) && 0 < Pad(LastFree(old(heap.bs), old(heap.end))) < MIN_TOTAL)
    ensures served ==> heap.Valid()
    ensures served ==> (heap.bs == old(heap.bs) <==> Restores(old(heap.list), old(heap.bs), old(heap.end), Need(size), align))
  {
    hide Tiling, Coalesced, Tagged, Listed, Clean, Allotted, Gap, IsBest, NoneServes, LastFree, FirstFit, Need, Pad, AlignUp, ReleasedEnd;
    ghost var list, b0, end0, need := heap.list, heap.bs, heap.end, Need(size);
    var r: Option<int>;
    ghost var g: int;
    r, g := heap.Alloc(size, align);
    if r.None? {
      return false;
    }
    ghost var b1, end1, h := heap.bs, heap.end, r.value - HEADER;
    UsedNow(b0, b1, h);
    var ok;
    ghost var a, e;
    ok, a, e := heap.Free(r.value);
    SourceBounds(b0, end0, g, need, align, h);
    GapIsSource(b0, end0, b1, end1, h, g, a, e, NoneServes(b0, need, align));
    RestoredIff(b0, end0, b1, heap.bs, heap.end, h);
    served := true;
  }

  lemma UsedNow(b0: Blocks, b1: Blocks, h: int)
    requires Allotted(b0, b1, h)
    ensures h in b1 && b1[h].used
  {
  }

  /** The block of the request lies inside of what it is cut from. */
  lemma SourceBounds(bs: Blocks, end: int, g: int, need: nat, align: bool, h: int)
    requires h == g + (if align then Pad(g) else 0) && MIN_TOTAL <= need <= Room(bs, end, g, need, align) - (h - g)
    requires if NoneServes(bs, need, align) then g == LastFree(bs, end) else IsBest(bs, g, need, align)
    ensures g <= h
    ensures if NoneServes(bs, need, align) then NewEnd(bs, end, need, align) % PAGE == 0 && end + MIN_TOTAL <= NewEnd(bs, end, need, align)
      else g in bs && !bs[g].used && h < End(bs, g)
  {
  }

  /** The heap of `init` after a request of 4044 bytes. */
  ghost function OneTaken(): Blocks {
    map[HEAP_BASE := Blk(4072, true), HEAP_BASE + 4072 := Blk(HEAP_INIT_SIZE - 4072, false)]
  }

  lemma OneTakenTiles()
    ensures Tiling(OneTaken(), HEAP_BASE + HEAP_INIT_SIZE) && Coalesced(OneTaken())
  {
    var bs, end := OneTaken(), HEAP_BASE + HEAP_INIT_SIZE;
    forall x | HEAP_BASE <= x < end ensures Owned(bs, x) {
      assert Within(bs, if x < HEAP_BASE + 4072 then HEAP_BASE else HEAP_BASE + 4072, x);
    }
  }

  lemma OneTakenIs(b0: Blocks, b1: Blocks)
    requires b0 == map[HEAP_BASE := Blk(HEAP_INIT_SIZE, false)] && Allotted(b0, b1, HEAP_BASE) && b1[HEAP_BASE].size == 4072
    requires Tiling(b1, HEAP_BASE + HEAP_INIT_SIZE) && Coalesced(b1)
    ensures b1 == OneTaken()
  {
    OneTakenTiles();
    UsedDetermine(b1, OneTaken(), HEAP_BASE + HEAP_INIT_SIZE);
  }

  /** Its unused block starts four bytes too early for an aligned payload, and too late for a front block. */
  lemma NothingAligned(need: nat)
    ensures NoneServes(OneTaken(), need, true)
    ensures LastFree(OneTaken(), HEAP_BASE + HEAP_INIT_SIZE) == HEAP_BASE + 4072 && Pad(HEAP_BASE + 4072) == 4
  {
    var bs := OneTaken();
    assert !bs[HEAP_BASE + 4072].used && End(bs, HEAP_BASE + 4072) == HEAP_BASE + HEAP_INIT_SIZE;
  }

  /** After `init`, a request of 4044 bytes and then any aligned request: the second one halts. */
  method AlignedHalt(size: nat) returns (halted: bool)
    ensures halted
  {
    hide Tiling, Coalesced, Tagged, Listed, Clean, Allotted, LastFree, FirstFit, AlignUp, Pad;
    var heap := new KernelHeap();
    var first, second: Option<int>;
    ghost var g: int;
    ghost var b0 := heap.bs;
    assert Serves(HEAP_BASE, HEAP_INIT_SIZE, Need(4044), false);
    first, g := heap.Alloc(4044, false);
    OneTakenIs(b0, heap.bs);
    NothingAligned(Need(size));
    second, g := heap.Alloc(size, true);
    halted := second.None?;
  }
}
