/**
 The kernel heap: a boundary-tag allocator with a free list sorted by size.
 */
module KernelHeaps {
  import opened Options
  import opened Lists
  import opened HeapBlocks
  import opened HeapMemory

  /** Rounds up to a page boundary. */
  function AlignUp(x: int): (r: int)
    ensures r % PAGE == 0 && x <= r < x + PAGE
  {
    x - x % PAGE + if x % PAGE == 0 then 0 else PAGE
  }

  /** The bytes between a block's natural payload start and the next page boundary. */
  function Pad(a: int): (r: int)
    ensures 0 <= r < PAGE && (a + HEADER + r) % PAGE == 0
  {
    AlignUp(a + HEADER) - (a + HEADER)
  }

  /** The total size of a block for a request: minimum, overheads, word alignment. */
  function Need(size: nat): (r: nat)
    ensures MIN_TOTAL <= r && size + HEADER + FOOTER <= r && r % 4 == 0
    ensures r < (if size < MIN_BLOCK_SIZE then MIN_BLOCK_SIZE else size) + HEADER + FOOTER + 4
  {
    var s := (if size < MIN_BLOCK_SIZE then MIN_BLOCK_SIZE else size) + HEADER + FOOTER;
    s + if s % 4 == 0 then 0 else 4 - s % 4
  }

  /** A block of `size` bytes at `a` can serve the request. */
  predicate Serves(a: int, size: int, need: nat, align: bool) {
    if align then (Pad(a) == 0 || MIN_TOTAL <= Pad(a)) && need + Pad(a) <= size else need <= size
  }

  // What is promised of place and size, without saying how it is computed

  predicate OnPage(p: int) {
    p % PAGE == 0
  }

  /** The least page boundary from `x` on. */
  ghost predicate FirstPage(x: int, p: int) {
    OnPage(p) && x <= p && forall q :: OnPage(q) && x <= q ==> p <= q
  }

  /** The first page boundary at which a payload in the block `a` can begin. */
  ghost predicate PayloadAt(a: int, p: int) {
    FirstPage(a + HEADER, p)
  }

  /** The unused block `a` has room for a block of `need` bytes: at its start, or so that the payload begins
      at the first page boundary and nothing or a whole block is left in front. */
  ghost predicate HasRoom(bs: Blocks, a: int, need: nat, align: bool) {
    && a in bs && !bs[a].used
    && if align then exists p :: PayloadAt(a, p) && (p == a + HEADER || a + HEADER + MIN_TOTAL <= p) && p - HEADER + need <= End(bs, a)
       else a + need <= End(bs, a)
  }

  /** The unused block that ends with the heap, or the end if there is none. */
  ghost predicate LastGap(bs: Blocks, end: int, g: int) {
    if g in bs then !bs[g].used && End(bs, g) == end else g == end && LeftUsed(bs, end)
  }

  /** A request is served from the smallest block that has room, and otherwise the heap grows by whole pages,
      as few as the request and the slack for its alignment take. */
  ghost predicate BestFit(bs: Blocks, end: int, need: nat, align: bool, g: int, newEnd: int) {
    if exists a :: HasRoom(bs, a, need, align)
    then newEnd == end && HasRoom(bs, g, need, align) && forall a :: HasRoom(bs, a, need, align) ==> bs[g].size <= bs[a].size
    else LastGap(bs, end, g) && FirstPage(end + need + (if align then PAGE else 0), newEnd)
  }

  /** Up to where the heap can be released when its last block is unused and starts at `a`. */
  ghost predicate Target(a: int, p: int) {
    if OnPage(a) then p == a else FirstPage(a + HEADER + MIN_BLOCK_SIZE + FOOTER, p)
  }

  /** The heap ended with an unused block from `a` to `e`, and now ends at `end`. */
  ghost predicate ReleasedTo(a: int, e: int, end: int) {
    && (end != e <==>
          && HEAP_BASE + HEAP_INIT_SIZE < a && MIN_SREL_SIZE <= e - a
          && (OnPage(a) || exists p :: Target(a, p) && MIN_SREL_SIZE <= e - p))
    && (end != e ==> Target(a, end))
  }

  lemma FirstPageIs(x: int)
    ensures forall p :: FirstPage(x, p) <==> p == AlignUp(x)
  {
    forall p ensures FirstPage(x, p) <==> p == AlignUp(x) {
      assert OnPage(AlignUp(x));
      if OnPage(p) && x <= p < AlignUp(x) {
        Between(p, AlignUp(x));
      }
      forall q | OnPage(q) && x <= q < AlignUp(x) ensures false {
        Between(q, AlignUp(x));
      }
    }
  }

  lemma Between(p: int, q: int)
    requires OnPage(p) && OnPage(q) && p < q
    ensures p + PAGE <= q
  {
  }

  lemma RoomIs(bs: Blocks, a: int, need: nat, align: bool)
    ensures HasRoom(bs, a, need, align) <==> a in bs && !bs[a].used && Serves(a, bs[a].size, need, align)
  {
    hide FirstPage, AlignUp;
    FirstPageIs(a + HEADER);
    assert PayloadAt(a, AlignUp(a + HEADER));
  }

  lemma BestFitIs(bs: Blocks, end: int, need: nat, align: bool, g: int)
    requires Tiling(bs, end)
    requires if NoneServes(bs, need, align) then g == LastFree(bs, end) else IsBest(bs, g, need, align)
    ensures BestFit(bs, end, need, align, g, NewEnd(bs, end, need, align))
    ensures NoneServes(bs, need, align) <==> !exists a :: HasRoom(bs, a, need, align)
  {
    hide HasRoom, Serves, FirstPage, AlignUp, LastFree, Tiling;
    forall a ensures HasRoom(bs, a, need, align) <==> a in bs && !bs[a].used && Serves(a, bs[a].size, need, align) {
      RoomIs(bs, a, need, align);
    }
    FirstPageIs(end + need + if align then PAGE else 0);
    LastGapIs(bs, end);
  }

  lemma LastGapIs(bs: Blocks, end: int)
    requires Tiling(bs, end)
    ensures LastGap(bs, end, LastFree(bs, end))
  {
    assert end in bs ==> Sound(end, bs[end], end);
  }

  lemma ReleasedIs(a: int, e: int)
    ensures ReleasedTo(a, e, ReleasedEnd(a, e))
  {
    hide FirstPage, AlignUp;
    FirstPageIs(a + HEADER + MIN_BLOCK_SIZE + FOOTER);
    TargetIs(a);
    if OnPage(a) {
      assert Target(a, a);
    } else {
      assert Target(a, AlignUp(a + HEADER + MIN_BLOCK_SIZE + FOOTER));
    }
  }

  lemma TargetIs(a: int)
    ensures AlignUp(a + HEADER + MIN_BLOCK_SIZE + FOOTER) == a + HEADER + Pad(a) + if Pad(a) < MIN_BLOCK_SIZE + FOOTER then PAGE else 0
  {
    hide AlignUp, Pad;
    var x, y := AlignUp(a + HEADER + MIN_BLOCK_SIZE + FOOTER), a + HEADER + Pad(a) + if Pad(a) < MIN_BLOCK_SIZE + FOOTER then PAGE else 0;
    assert OnPage(x) && OnPage(y);
    if x < y {
      Between(x, y);
    } else if y < x {
      Between(y, x);
    }
  }

  class KernelHeap {
    var hdr: map<int, Header>
    var ftr: map<int, Footer>
    /** The free list. */
    var list: seq<int>
    var end: int
    /** The blocks that tile the heap; a block in hand counts as used. */
    ghost var bs: Blocks

    ghost function Mem(): Tags
      reads this
    {
      Tags(hdr, ftr, list)
    }

    ghost predicate Holding(hand: set<int>)
      reads this
    {
      && Tiling(bs, end) && Coalesced(bs) && Tagged(Mem(), bs, hand) && Listed(list, bs)
      && end % PAGE == 0 && HEAP_BASE + HEAP_INIT_SIZE <= end
    }

    ghost predicate Valid()
      reads this
    {
      Holding({}) && Clean(Mem(), bs)
    }

    /** The header and the footer of a block in hand are in place. */
    ghost predicate InHand(h: int)
      reads this
    {
      && h in bs && bs[h].used && h in hdr && hdr[h].magic == HEADER_MAGIC && hdr[h].size == bs[h].size
      && FootedAt(Mem(), h, bs[h])
    }

    /** `init`: one unused block. */
    constructor ()
      ensures Valid() && end == HEAP_BASE + HEAP_INIT_SIZE && bs == map[HEAP_BASE := Blk(HEAP_INIT_SIZE, false)]
    {
      hdr := map[HEAP_BASE := Header(HEADER_MAGIC, HEAP_INIT_SIZE, true, false)];
      ftr := map[HEAP_BASE + HEAP_INIT_SIZE - FOOTER := Footer(FOOTER_MAGIC, HEAP_BASE)];
      list := [HEAP_BASE];
      end := HEAP_BASE + HEAP_INIT_SIZE;
      bs := map[HEAP_BASE := Blk(HEAP_INIT_SIZE, false)];
      new;
      OneBlock();
    }

    /** `insert_list`: enters a block in hand into the free list, before the first block of its size. */
    method InsertList(x: int, ghost hand: set<int>)
      requires Holding(hand) && x in hand && InHand(x) && !hdr[x].used && RightUsed(bs, x) && LeftUsed(bs, x)
      requires forall a :: a in hand ==> a !in list
      modifies this
      ensures Holding(hand - {x}) && bs == old(bs)[x := Blk(old(bs)[x].size, false)]
      ensures hdr == old(hdr)[x := old(hdr)[x].(linked := true)] && ftr == old(ftr) && end == old(end)
    {
      hide Tiling, Coalesced, NoDuplicates, SizeSorted, RightUsed, LeftUsed;
      ListedHeaders(Mem(), bs, hand);
      var i := 0;
      while i < |list| && hdr[list[i]].size < hdr[x].size
        invariant 0 <= i <= |list|
        invariant forall j :: 0 <= j < i ==> Size(bs, list[j]) < bs[x].size
      {
        i := i + 1;
      }
      EnteredListed(list, bs, x, i);
      list := list[..i] + [x] + list[i..];
      hdr := hdr[x := hdr[x].(linked := true)];
      bs := bs[x := Blk(bs[x].size, false)];
      EnterBlocks(old(bs), end, x);
    }

    /** Takes an unused block off the free list. */
    method Take(h: int)
      requires Valid() && h in list
      modifies this
      ensures Holding({h}) && InHand(h) && RightUsed(bs, h) && LeftUsed(bs, h)
      ensures h in old(bs) && !old(bs)[h].used && bs == old(bs)[h := Blk(old(bs)[h].size, true)]
      ensures !hdr[h].used && end == old(end) && Clean(Mem(), bs) && forall a :: a in {h} ==> a !in list
    {
      hide Tiling, Coalesced, RightUsed, LeftUsed, Clean;
      TakenListed(list, bs, h);
      list := Remove(list, h);
      hdr := hdr[h := hdr[h].(linked := false)];
      bs := bs[h := Blk(bs[h].size, true)];
      TakeBlocks(old(bs), end, h);
      CleanKept(old(Mem()), old(bs), Mem(), bs);
    }

    /** The search for a block: the first of the list that serves, which is the smallest one that does. */
    method FindFit(need: nat, align: bool) returns (h: Option<int>)
      requires Valid()
      ensures h.None? <==> NoneServes(bs, need, align)
      ensures h.Some? ==> h.value in list && h.value == FirstFit(list, bs, need, align) && IsBest(bs, h.value, need, align)
    {
      ListedHeaders(Mem(), bs, {});
      hide Tiling, Tagged, Coalesced, Serves, Clean, IsBest, NoneServes;
      var i := 0;
      assert list[0..] == list;
      while i < |list|
        invariant 0 <= i <= |list| && FirstFit(list, bs, need, align) == FirstFit(list[i..], bs, need, align)
        invariant forall j :: 0 <= j < i ==> !Serves(list[j], bs[list[j]].size, need, align)
      {
        var a := list[i];
        assert list[i..][0] == a && list[i..][1..] == list[i + 1..];
        if Serves(a, hdr[a].size, need, align) {
          FirstIsBest(list, bs, need, align, i);
          return Some(a);
        }
        i := i + 1;
      }
      NoFit(list, bs, need, align);
      return None;
    }

    /** Front split: the block in hand starts `off` bytes later, and the front part becomes unused. */
    method FrontSplit(h: int, off: int) returns (k: int)
      requires Holding({h}) && InHand(h) && !hdr[h].used && RightUsed(bs, h) && LeftUsed(bs, h) && Clean(Mem(), bs)
      requires off % 4 == 0 && MIN_TOTAL <= off && off + MIN_TOTAL <= bs[h].size
      modifies this
      ensures Holding({k}) && InHand(k) && !hdr[k].used && RightUsed(bs, k) && k == h + off && Clean(Mem(), bs)
      ensures bs == Cut(old(bs), h, off, false, true) && k !in old(bs) && end == old(end)
    {
      hide Tiling, Coalesced, Listed, RightUsed, LeftUsed, Tagged, Clean;
      var oldFooter, oldSize := h + hdr[h].size - FOOTER, hdr[h].size;
      CutInHand(bs, end, h, off);
      k := h + off;
      hdr := hdr[h := hdr[h].(size := off, used := false)];
      ftr := ftr[k - FOOTER := Footer(FOOTER_MAGIC, h)];
      FrontTagged(old(Mem()), Mem(), bs, end, h, k);
      bs := Cut(bs, h, off, true, true);
      InsertList(h, {h, k});
      assert {h, k} - {h} == {k};
      FrontDone(old(bs), end, h, off);
      var garbage: bool := *;
      Stamp(k, Header(HEADER_MAGIC, oldSize - off, garbage, false), oldFooter);
      assert hdr == old(hdr)[h := hdr[h]][k := hdr[k]];
      FrontClean(old(Mem()), old(bs), Mem(), bs, h, k, oldFooter);
    }

    /** Writes the header of a block in hand and makes its footer point back to it. */
    method Stamp(k: int, header: Header, footer: int)
      requires Holding({k}) && k in bs && bs[k].used && header.magic == HEADER_MAGIC && header.size == bs[k].size && !header.used
      requires footer == Foot(bs, k) && footer in ftr && ftr[footer].magic == FOOTER_MAGIC && bs[k].size >= MIN_TOTAL
      modifies this`hdr, this`ftr
      ensures Holding({k}) && InHand(k) && hdr == old(hdr)[k := header] && ftr == old(ftr)[footer := Footer(FOOTER_MAGIC, k)]
    {
      hide Tiling, Coalesced, Listed;
      ghost var m := Mem();
      hdr := hdr[k := header];
      ftr := ftr[footer := ftr[footer].(header := k)];
      OtherTagged(m, Mem(), bs, end, k);
    }

    /** The tags of a tail split: two blocks in hand. */
    method CutTail(h: int, need: int)
      requires Holding({h}) && InHand(h) && !hdr[h].used && RightUsed(bs, h) && Clean(Mem(), bs)
      requires need % 4 == 0 && MIN_TOTAL <= need && need + MIN_TOTAL <= bs[h].size
      modifies this
      ensures Clean(Mem(), bs)
      ensures Holding({h, h + need}) && InHand(h) && InHand(h + need) && !hdr[h].used && !hdr[h + need].used
      ensures RightUsed(bs, h + need) && LeftUsed(bs, h + need) && forall a :: a in {h, h + need} ==> a !in list
      ensures bs == Cut(old(bs), h, need, true, true) && h + need !in old(bs) && end == old(end)
    {
      hide Tiling, Coalesced, RightUsed, LeftUsed, Tagged, Listed, Clean;
      var oldFooter, oldSize := h + hdr[h].size - FOOTER, hdr[h].size;
      CutInHand(bs, end, h, need);
      var p := h + need;
      hdr := hdr[h := hdr[h].(size := need)];
      ftr := ftr[p - FOOTER := Footer(FOOTER_MAGIC, h)];
      var garbage: bool := *;
      hdr := hdr[p := Header(HEADER_MAGIC, oldSize - need, garbage, false)];
      ftr := ftr[oldFooter := ftr[oldFooter].(header := p)];
      TailTagged(old(Mem()), Mem(), bs, end, h, p);
      bs := Cut(bs, h, need, true, true);
      CutClean(old(Mem()), old(bs), Mem(), bs, h, p);
    }

    /** Tail split: the block in hand keeps `need` bytes, and the rest becomes unused. */
    method TailSplit(h: int, need: int)
      requires Holding({h}) && InHand(h) && !hdr[h].used && RightUsed(bs, h) && Clean(Mem(), bs)
      requires need % 4 == 0 && MIN_TOTAL <= need && need + MIN_TOTAL <= bs[h].size
      modifies this
      ensures Holding({h}) && InHand(h) && !hdr[h].used && Clean(Mem(), bs)
      ensures bs == Cut(old(bs), h, need, true, false) && h + need !in old(bs) && end == old(end)
    {
      hide Tiling, Coalesced, Listed, RightUsed, LeftUsed, Tagged;
      var p := h + need;
      CutTail(h, need);
      ghost var m, b := Mem(), bs;
      InsertList(p, {h, p});
      CleanKept(m, b, Mem(), bs);
      assert {h, p} - {p} == {h};
      assert bs == Cut(old(bs), h, need, true, false);
    }

    /** The bytes from the last block in hand, or from the old end, to the new end become one block. */
    method Extend(h: int, header: Header, newEnd: int)
      requires (h == end && Valid()) || (Holding({h}) && InHand(h) && End(bs, h) == end && Clean(Mem(), bs))
      requires LeftUsed(bs, h) && newEnd % PAGE == 0 && end + MIN_TOTAL <= newEnd
      requires header.magic == HEADER_MAGIC && header.size == newEnd - h && !header.used
      modifies this
      ensures Holding({h}) && InHand(h) && !hdr[h].used && RightUsed(bs, h) && LeftUsed(bs, h) && Clean(Mem(), bs)
      ensures end == newEnd && bs == old(bs)[h := Blk(newEnd - h, true)] && (h == old(end) ==> h !in old(bs))
    {
      hide Tiling, Coalesced, Listed, RightUsed, LeftUsed, Tagged;
      Words(end);
      Words(newEnd);
      GrowBlocks(bs, end, h, newEnd - end);
      GrowTagged(Mem(), bs, end, newEnd, h, header);
      hdr := hdr[h := header];
      ftr := ftr[newEnd - FOOTER := Footer(FOOTER_MAGIC, h)];
      bs := bs[h := Blk(newEnd - h, true)];
      end := newEnd;
      CleanKept(old(Mem()), old(bs), Mem(), bs);
    }

    /** `sbrk` and the block for it: the last block if it is unused, a new one otherwise. */
    method Grow(want: nat) returns (h: int)
      requires Valid() && MIN_TOTAL <= want
      modifies this
      ensures Holding({h}) && InHand(h) && !hdr[h].used && RightUsed(bs, h) && LeftUsed(bs, h) && Clean(Mem(), bs)
      ensures end == AlignUp(old(end) + want) && bs == old(bs)[h := Blk(end - h, true)]
      ensures h == old(end) || (h in old(bs) && !old(bs)[h].used && End(old(bs), h) == old(end))
      ensures h == old(end) ==> h !in old(bs) && LeftUsed(old(bs), h)
      ensures want <= bs[h].size
    {
      hide Tiling, Coalesced, Listed, RightUsed, LeftUsed, Tagged, Clean, AlignUp;
      ghost var l := LastTags(Mem(), bs, end);
      var last := ftr[end - FOOTER].header;
      var newEnd := AlignUp(end + want);
      if hdr[last].used {
        h := end;
        OnlyLast(bs, end, l);
        var garbage: bool := *;
        Extend(h, Header(HEADER_MAGIC, newEnd - end, garbage, false), newEnd);
      } else {
        h := last;
        UnusedListed(list, bs, h);
        Take(h);
        Extend(h, hdr[h].(size := hdr[h].size + (newEnd - end)), newEnd);
        assert bs == old(bs)[h := Blk(newEnd - h, true)];
      }
    }

    /** A block in hand that can serve the request: from the free list, or by growing the heap. */
    method Obtain(need: nat, align: bool) returns (h: int)
      requires Valid() && MIN_TOTAL <= need
      modifies this
      ensures Holding({h}) && InHand(h) && !hdr[h].used && RightUsed(bs, h) && LeftUsed(bs, h) && Clean(Mem(), bs)
      ensures Allotted(old(bs), bs, h) && need + (if align then Pad(h) else 0) <= bs[h].size
      ensures h == Source(old(list), old(bs), old(end), need, align)
      ensures end == NewEnd(old(bs), old(end), need, align) && bs[h].size == Room(old(bs), old(end), h, need, align)
      ensures !NoneServes(old(bs), need, align) ==> IsBest(old(bs), h, need, align)
    {
      hide Tiling, Coalesced, Listed, RightUsed, LeftUsed, Tagged, Pad, Allotted, Clean, FirstFit;
      var f := FindFit(need, align);
      if f.None? {
        h := Grow(need + (if align then PAGE else 0));
        LastFreeIs(old(bs), old(end), h);
        AllottedNew(old(bs), h, bs[h].size);
      } else {
        h := f.value;
        Take(h);
        AllottedNew(old(bs), h, bs[h].size);
      }
    }

    /** Gives the unneeded rest of the block in hand back and marks the block as used. */
    method Trim(h: int, need: nat, ghost b0: Blocks)
      requires Holding({h}) && InHand(h) && !hdr[h].used && RightUsed(bs, h) && Allotted(b0, bs, h) && Clean(Mem(), bs)
      requires MIN_TOTAL <= need <= bs[h].size && need % 4 == 0
      modifies this
      ensures Valid() && Allotted(b0, bs, h) && h in bs && end == old(end)
      ensures bs[h].size == if old(bs)[h].size >= need + MIN_TOTAL then need else old(bs)[h].size
    {
      hide Tiling, Coalesced, Listed, RightUsed, LeftUsed, Tagged, Allotted, Clean;
      if hdr[h].size >= need + MIN_TOTAL {
        AllottedTail(b0, bs, h, need);
        TailSplit(h, need);
      }
      Finish(h);
    }

    /** Marks the block in hand as used. */
    method Finish(h: int)
      requires Holding({h}) && InHand(h) && Clean(Mem(), bs)
      modifies this`hdr
      ensures Valid()
    {
      hide Tiling, Coalesced, Listed, Clean;
      hdr := hdr[h := hdr[h].(used := true)];
      CleanKept(old(Mem()), bs, Mem(), bs);
    }

    /** `alloc`: a payload of the requested size, or None for the halt on an awkward last block. The
        block `g` that the payload is cut from, the place in it and the size are those the state
        before the call decides. */
    method Alloc(size: nat, align: bool) returns (r: Option<int>, ghost g: int)
      requires Valid()
      modifies this
      ensures g == Source(old(list), old(bs), old(end), Need(size), align)
      ensures r.None? <==> align && NoneServes(old(bs), Need(size), align) && 0 < Pad(g) < MIN_TOTAL
      ensures r.Some? ==>
        var h, pad := r.value - HEADER, if align then Pad(g) else 0;
        var room := Room(old(bs), old(end), g, Need(size), align) - pad;
        && Valid() && Allotted(old(bs), bs, h) && h == g + pad && Need(size) <= room
        && bs[h].size == (if room >= Need(size) + MIN_TOTAL then Need(size) else room)
        && (align ==> r.value % PAGE == 0)
        && (!NoneServes(old(bs), Need(size), align) ==> IsBest(old(bs), g, Need(size), align))
        && end == NewEnd(old(bs), old(end), Need(size), align)
      ensures r.None? <==>
        && align && LastGap(old(bs), old(end), g) && (forall a :: !HasRoom(old(bs), a, Need(size), align))
        && exists p :: PayloadAt(g, p) && 0 < p - (g + HEADER) < MIN_TOTAL
      ensures r.Some? ==> BestFit(old(bs), old(end), Need(size), align, g, end)
      ensures r.Some? ==> if align then PayloadAt(g, r.value) else r.value == g + HEADER
    {
      hide Tiling, Coalesced, Listed, RightUsed, LeftUsed, Tagged, Pad, Need, AlignUp, Allotted, NoneServes, IsBest, LastFree, Clean, Source, Room, NewEnd, BestFit, LastGap, HasRoom, PayloadAt;
      var need := Need(size);
      var h := Obtain(need, align);
      g := h;
      PlaceIs(old(list), old(bs), old(end), need, align, g);
      if align && Pad(h) > 0 {
        var off := Pad(h);
        if IsBest(old(bs), h, need, true) { BestPad(old(bs), h, need); }
        if off < MIN_TOTAL {
          return None, g;
        }
        PadWords(bs, end, h);
        AllottedFront(old(bs), bs, h, off);
        h := FrontSplit(h, off);
      }
      Trim(h, need, old(bs));
      r := Some(h + HEADER);
    }

    /** The block in hand for freeing: its footer may still point to a header that was merged away. */
    ghost predicate Freeing(h: int)
      reads this
    {
      && h in bs && bs[h].used && h in hdr && hdr[h].magic == HEADER_MAGIC && hdr[h].size == bs[h].size
      && Foot(bs, h) in ftr && ftr[Foot(bs, h)].magic == FOOTER_MAGIC
    }

    /** Takes an unused neighbour `n` of the block `h` in hand off the free list. */
    method TakeNeighbour(n: int, h: int)
      requires Holding({h}) && n in bs && !bs[n].used && n != h
      modifies this
      ensures Holding({h, n}) && bs == old(bs)[n := Blk(old(bs)[n].size, true)] && RightUsed(bs, n) && LeftUsed(bs, n)
      ensures n in old(hdr) && hdr == old(hdr)[n := old(hdr)[n].(linked := false)] && ftr == old(ftr) && end == old(end)
    {
      hide Tiling, Coalesced, RightUsed, LeftUsed;
      TakenListed(list, bs, n);
      assert HeadedAt(Mem(), n, bs[n]);
      list := Remove(list, n);
      hdr := hdr[n := hdr[n].(linked := false)];
      bs := bs[n := Blk(bs[n].size, true)];
      TakeBlocks(old(bs), end, n);
    }

    /** The block in hand absorbs the unused block to its right. */
    method AbsorbRight(h: int, right: int)
      requires Holding({h}) && Freeing(h) && right == End(bs, h) && right in bs && !bs[right].used && right != h && Clean(Mem(), bs)
      modifies this
      ensures Holding({h}) && Freeing(h) && RightUsed(bs, h) && bs == Join(old(bs), h, true) && end == old(end) && Clean(Mem(), bs)
    {
      hide Tiling, Coalesced, Listed, RightUsed, LeftUsed, Clean;
      assert HeadedAt(Mem(), right, bs[right]) && FootedAt(Mem(), right, bs[right]);
      hdr := hdr[h := hdr[h].(size := hdr[h].size + hdr[right].size)];
      assert Holding({h});
      TakeNeighbour(right, h);
      hdr := hdr[right := hdr[right].(magic := HEADER_RM_MAGIC)];
      JoinInHand(bs, end, h);
      JoinTagged(Mem(), bs, end, h, right, {h, right});
      bs := Join(bs, h, true);
      assert bs == Join(old(bs), h, true);
      CleanJoined(old(Mem()), old(bs), Mem(), bs, right);
    }

    /** Merges the block in hand with the block to its right, if that is unused. */
    method MergeRight(h: int)
      requires Holding({h}) && Freeing(h) && Clean(Mem(), bs)
      modifies this
      ensures Holding({h}) && Freeing(h) && RightUsed(bs, h) && end == old(end) && Clean(Mem(), bs)
      ensures bs == if RightUsed(old(bs), h) then old(bs) else Join(old(bs), h, true)
    {
      hide Tiling, Coalesced, Listed, LeftUsed;
      NextBlock(bs, end, h);
      var right := h + hdr[h].size;
      if right < end && hdr[right].magic == HEADER_MAGIC && hdr[right].linked {
        var rightFooter := right + hdr[right].size - FOOTER;
        if ftr[rightFooter].magic == FOOTER_MAGIC && ftr[rightFooter].header == right && !hdr[right].used {
          AbsorbRight(h, right);
        }
      }
    }

    /** The unused block to the left absorbs the block in hand. */
    method AbsorbLeft(h: int, left: int)
      requires Holding({h}) && Freeing(h) && left in bs && !bs[left].used && End(bs, left) == h && left != h && RightUsed(bs, h)
      requires Clean(Mem(), bs)
      modifies this
      ensures Holding({left}) && Freeing(left) && bs == Join(old(bs), left, true) && end == old(end)
      ensures RightUsed(bs, left) && LeftUsed(bs, left) && CleanBut(Mem(), bs, End(bs, left))
    {
      hide Tiling, Coalesced, Listed, RightUsed, LeftUsed, Clean, CleanBut;
      assert HeadedAt(Mem(), left, bs[left]) && FootedAt(Mem(), left, bs[left]);
      var leftFooter := h - FOOTER;
      ghost var b0 := bs;
      LeastSize(bs, end, h);
      TakeNeighbour(left, h);
      StillRightUsed(b0, end, h, left);
      hdr := hdr[left := hdr[left].(size := hdr[left].size + hdr[h].size)];
      ftr := ftr[leftFooter := ftr[leftFooter].(magic := FOOTER_RM_MAGIC)];
      FootWritten(Tags(hdr, old(ftr), list), Mem(), bs, end, left, {h, left});
      JoinInHand(bs, end, left);
      assert {h, left} == {left, h};
      JoinTagged(Mem(), bs, end, left, h, {left, h});
      bs := Join(bs, left, true);
      assert bs == Join(old(bs), left, true);
      CleanAbsorbed(old(Mem()), old(bs), Mem(), bs, h, left);
    }

    /** Merges the block in hand into the block to its left, if that is unused. */
    method MergeLeft(h: int) returns (m: int)
      requires Holding({h}) && Freeing(h) && RightUsed(bs, h) && Clean(Mem(), bs)
      modifies this
      ensures Holding({m}) && Freeing(m) && RightUsed(bs, m) && LeftUsed(bs, m) && end == old(end) && CleanBut(Mem(), bs, End(bs, m))
      ensures if LeftUsed(old(bs), h) then m == h else m in old(bs) && !old(bs)[m].used && End(old(bs), m) == h
      ensures bs == if LeftUsed(old(bs), h) then old(bs) else Join(old(bs), m, true)
    {
      hide Coalesced, Listed, RightUsed;
      m := h;
      assert Sound(h, bs[h], end);
      if h >= HEAP_BASE + MIN_TOTAL {
        ghost var l := PreviousBlock(bs, end, h);
        assert HeadedAt(Mem(), l, bs[l]) && FootedAt(Mem(), l, bs[l]);
        LeftIs(bs, end, h, l);
        var leftFooter := h - FOOTER;
        if ftr[leftFooter].magic == FOOTER_MAGIC {
          var left := ftr[leftFooter].header;
          if hdr[left].magic == HEADER_MAGIC && !hdr[left].used && hdr[left].linked && left + hdr[left].size == h {
            AbsorbLeft(h, left);
            m := left;
          }
        }
      } else {
        NoLeft(bs, end, h);
      }
    }

    /** Merges the block in hand with its unused neighbours; `m` and `e` bound the result. */
    method Merge(h: int) returns (m: int, ghost e: int)
      requires Holding({h}) && Freeing(h) && Clean(Mem(), bs)
      modifies this
      ensures Holding({m}) && Freeing(m) && RightUsed(bs, m) && LeftUsed(bs, m) && end == old(end) && CleanBut(Mem(), bs, e)
      ensures e == End(bs, m) && Gap(old(bs), h, m, e) && Merged(old(bs), bs, h, m)
    {
      hide Clean, CleanBut, Tiling, Coalesced, Listed, Tagged, RightUsed, LeftUsed, Join, Gap, Merged;
      ghost var b0 := bs;
      MergeRight(h);
      ghost var b1 := bs;
      m := MergeLeft(h);
      e := End(bs, m);
      MergedBoth(b0, b1, bs, end, h, m);
    }

    /** `srel`: everything from the new end on is unmapped. */
    method Contract(newEnd: int)
      modifies this`hdr, this`ftr, this`end
      ensures end == newEnd && Mem() == Kept(old(Mem()), newEnd)
    {
      hdr := map a | a in hdr && a < newEnd :: hdr[a];
      ftr := map a | a in ftr && a < newEnd :: ftr[a];
      end := newEnd;
    }

    /** Shrinks the heap inside the last block, which is in hand and ends with the heap. */
    method ShrinkTo(m: int, newEnd: int)
      requires Holding({m}) && Freeing(m) && LeftUsed(bs, m) && End(bs, m) == end && CleanBut(Mem(), bs, end)
      requires newEnd % PAGE == 0 && m + MIN_TOTAL <= newEnd < end && HEAP_BASE + HEAP_INIT_SIZE <= newEnd
      modifies this
      ensures Holding({m}) && Freeing(m) && RightUsed(bs, m) && LeftUsed(bs, m) && Clean(Mem(), bs)
      ensures end == newEnd && bs == old(bs)[m := Blk(newEnd - m, true)]
    {
      hide Tiling, Coalesced, Listed, RightUsed, LeftUsed, Tagged;
      LeastSize(bs, end, m);
      Words(newEnd);
      ShrinkBlocks(bs, end, m, newEnd - m);
      KeptTagged(Mem(), bs, end, newEnd, m);
      Contract(newEnd);
      ShrinkTagged(Mem(), bs, old(end), newEnd, m, hdr[m].(size := newEnd - m));
      KeptClean(old(Mem()), bs, old(end), newEnd);
      ghost var k, b := Mem(), bs;
      hdr := hdr[m := hdr[m].(size := newEnd - m)];
      ftr := ftr[newEnd - FOOTER := Footer(FOOTER_MAGIC, m)];
      bs := bs[m := Blk(newEnd - m, true)];
      CleanKept(k, b, Mem(), bs);
    }

    /** Gives up the last block, which is in hand and starts on a page boundary. */
    method GiveUp(m: int)
      requires Holding({m}) && Freeing(m) && End(bs, m) == end && CleanBut(Mem(), bs, end)
      requires m % PAGE == 0 && HEAP_BASE + HEAP_INIT_SIZE <= m
      modifies this
      ensures Valid() && end == m && bs == old(bs) - {m}
    {
      hide Tiling, Coalesced, Listed, Tagged, CleanBut;
      LeastSize(bs, end, m);
      ShrinkBlocks(bs, end, m, bs[m].size);
      KeptTagged(Mem(), bs, end, m, m);
      Contract(AlignUp(end - hdr[m].size));
      DropTagged(Mem(), bs, m);
      KeptClean(old(Mem()), bs, old(end), m);
      bs := bs - {m};
    }

    /** Releases the end of the last block in hand, if that gives back enough. */
    method Release(m: int) returns (gone: bool)
      requires Holding({m}) && Freeing(m) && RightUsed(bs, m) && LeftUsed(bs, m) && CleanBut(Mem(), bs, End(bs, m))
      modifies this
      ensures end == if End(old(bs), m) == old(end) then ReleasedEnd(m, old(end)) else old(end)
      ensures gone ==> Valid() && bs == old(bs) - {m} && end == m
      ensures !gone ==> Holding({m}) && Freeing(m) && RightUsed(bs, m) && LeftUsed(bs, m) && CleanBut(Mem(), bs, End(bs, m))
      ensures !gone ==> bs == old(bs)[m := Blk(bs[m].size, true)]
      ensures !gone ==> End(bs, m) == if End(old(bs), m) == old(end) then end else End(old(bs), m)
    {
      hide Tiling, Coalesced, Listed, Tagged, RightUsed, LeftUsed, AlignUp;
      gone := false;
      var size := hdr[m].size;
      assert bs == bs[m := Blk(bs[m].size, true)];
      if m + size == end && MIN_SREL_SIZE <= size && HEAP_BASE + HEAP_INIT_SIZE < m {
        if m % PAGE != 0 {
          var offset := AlignUp(m + HEADER) - (m + HEADER);
          var start := m + HEADER + offset;
          if offset < MIN_BLOCK_SIZE + FOOTER {
            start := start + PAGE;
          }
          if MIN_SREL_SIZE <= end - start {
            ShrinkTo(m, start);
          }
        } else {
          GiveUp(m);
          gone := true;
        }
      }
    }

    /** Corrects the footer of the block in hand and enters the block into the free list. */
    method Enlist(m: int)
      requires Holding({m}) && Freeing(m) && RightUsed(bs, m) && LeftUsed(bs, m) && CleanBut(Mem(), bs, End(bs, m))
      modifies this
      ensures Valid() && bs == old(bs)[m := Blk(old(bs)[m].size, false)] && end == old(end)
    {
      hide Tiling, Coalesced, RightUsed, LeftUsed, NoDuplicates, SizeSorted, Clean, CleanBut;
      var footer := m + hdr[m].size - FOOTER;
      FootWritten(Mem(), Tags(hdr, ftr[footer := ftr[footer].(header := m)], list), bs, end, m, {m});
      ftr := ftr[footer := ftr[footer].(header := m)];
      hdr := hdr[m := hdr[m].(used := false)];
      InsertList(m, {m});
      assert {m} - {m} == {};
      CleanFooted(old(Mem()), old(bs), Mem(), bs, m);
    }

    /** `free`: gives a block back, or halts (`!ok`). `a` and `e` bound the gap that the block leaves, and what
        is not released of it is one unused block. */
    method Free(p: int) returns (ok: bool, ghost a: int, ghost e: int)
      requires Valid()
      modifies this
      ensures ok <==> p - HEADER in old(bs) && old(bs)[p - HEADER].used
      ensures !ok ==> Mem() == old(Mem()) && bs == old(bs) && end == old(end)
      ensures ok ==> Valid() && Allotted(bs, old(bs), p - HEADER)
      ensures ok ==> Gap(old(bs), p - HEADER, a, e) && end == if e == old(end) then ReleasedEnd(a, e) else old(end)
      ensures ok ==> if e == old(end) then ReleasedTo(a, e, end) else end == old(end)
      ensures ok ==> if a == end then a !in bs else a in bs && bs[a] == Blk((if e == old(end) then end else e) - a, false)
    {
      hide Tiling, Coalesced, Listed, RightUsed, LeftUsed, Gap, Merged, Allotted, ReleasedEnd, ReleasedTo, CleanBut;
      UsedAccepted(Mem(), bs, end, p - HEADER);
      if p < HEAP_BASE || p >= end || !Accepts(hdr, ftr, p - HEADER) {
        return false, 0, 0;
      }
      var h := p - HEADER;
      ok := true;
      ghost var b0 := bs;
      var m;
      m, e := Merge(h);
      a := m;
      ghost var b1 := bs;
      var gone := Release(m);
      ReleasedIs(a, e);
      if gone {
        MergedAllotted(b0, b1, bs, h, m);
        return;
      }
      MergedAllotted(b0, b1, bs[m := Blk(bs[m].size, false)], h, m);
      LeastSize(bs, end, m);
      Enlist(m);
    }
  }

  /** The block `h` and its unused neighbours lie between `a` and `e`. */
  ghost predicate Gap(bs: Blocks, h: int, a: int, e: int) {
    && h in bs
    && (if LeftUsed(bs, h) then a == h else a in bs && !bs[a].used && End(bs, a) == h)
    && (if RightUsed(bs, h) then e == End(bs, h) else e == End(bs, End(bs, h)))
  }

  /** The block `h` was merged into the block `m` in hand; all other used blocks are as before. */
  ghost predicate Merged(bs: Blocks, cs: Blocks, h: int, m: int) {
    && h in bs && bs[h].used && m in cs && m <= h && (m != h ==> h !in cs && m in bs && !bs[m].used)
    && forall a :: a != m && a != h ==>
      && ((a in cs && cs[a].used) <==> (a in bs && bs[a].used))
      && (a in bs && bs[a].used ==> a in cs && cs[a] == bs[a])
  }

  lemma MergedBoth(b0: Blocks, b1: Blocks, b2: Blocks, end: int, h: int, m: int)
    requires Tiling(b0, end) && h in b0 && b0[h].used
    requires b1 == if RightUsed(b0, h) then b0 else Join(b0, h, true)
    requires h in b1 && if LeftUsed(b1, h) then m == h else m in b1 && !b1[m].used && End(b1, m) == h
    requires b2 == if LeftUsed(b1, h) then b1 else Join(b1, m, true)
    ensures m in b2 && Gap(b0, h, m, End(b2, m)) && Merged(b0, b2, h, m)
  {
    hide Tiling;
    LeastSize(b0, end, h);
    assert forall x :: x in b1 && x != h ==> x in b0 && b1[x] == b0[x] && End(b1, x) == End(b0, x);
    if !RightUsed(b0, h) {
      var r := End(b0, h);
      LeastSize(b0, end, r);
      RightKeepsLeft(b0, end, h);
    }
    if m != h {
      LeastSize(b0, end, m);
    }
  }

  lemma RightKeepsLeft(bs: Blocks, end: int, h: int)
    requires Tiling(bs, end) && h in bs && bs[h].used && End(bs, h) in bs
    ensures LeftUsed(Join(bs, h, true), h) <==> LeftUsed(bs, h)
  {
    var r, cs := End(bs, h), Join(bs, h, true);
    assert Sound(h, bs[h], end) && Sound(r, bs[r], end);
    assert forall x :: x in cs && x != h ==> x in bs && cs[x] == bs[x] && End(cs, x) == End(bs, x);
    assert forall x :: x in bs && x != h && x != r ==> x in cs && End(cs, x) == End(bs, x);
  }

  lemma MergedAllotted(b0: Blocks, b1: Blocks, b2: Blocks, h: int, m: int)
    requires Merged(b0, b1, h, m)
    requires b2 == b1 - {m} || (m in b2 && b2 == b1[m := Blk(b2[m].size, false)])
    ensures Allotted(b2, b0, h)
  {
  }

  /** The tests of `free` tell used blocks from everything else, stale tags included. */
  lemma UsedAccepted(m: Tags, bs: Blocks, end: int, h: int)
    requires Tiling(bs, end) && Tagged(m, bs, {}) && Clean(m, bs)
    ensures Accepts(m.hdr, m.ftr, h) <==> h in bs && bs[h].used
    ensures h in bs ==> HEAP_BASE <= h && h + HEADER < end && HeadedAt(m, h, bs[h]) && FootedAt(m, h, bs[h])
  {
    assert h in bs ==> Sound(h, bs[h], end);
  }

  /** A cut writes the headers of both parts and footers that lead to them. */
  lemma CutClean(m: Tags, bs: Blocks, m': Tags, bs': Blocks, h: int, p: int)
    requires Clean(m, bs) && h in bs && bs'.Keys == bs.Keys + {p} && m'.hdr.Keys == m.hdr.Keys + {h, p}
    requires forall x :: x in m.hdr && x != h && x != p ==> m'.hdr[x] == m.hdr[x]
    requires forall f :: f in m'.ftr ==> m'.ftr[f].header in {h, p} || (f in m.ftr && m'.ftr[f] == m.ftr[f])
    ensures Clean(m', bs')
  {
    CleanKept(m, bs, m', bs');
  }

  /** The block `r` is gone, and its header no longer says that it is one. */
  lemma CleanJoined(m: Tags, bs: Blocks, m': Tags, bs': Blocks, r: int)
    requires Clean(m, bs) && bs'.Keys == bs.Keys - {r} && m'.ftr == m.ftr && r in m'.hdr && m'.hdr[r].magic != HEADER_MAGIC
    requires forall h :: h in m'.hdr && h !in bs ==> h in m.hdr && m'.hdr[h] == m.hdr[h]
    ensures Clean(m', bs')
  {
    forall h | Accepts(m'.hdr, m'.ftr, h) ensures h in bs' {
      assert h !in bs ==> Accepts(m.hdr, m.ftr, h);
    }
  }

  /** The block `h` is gone, and its header leads to the footer of the block that absorbed it. */
  lemma CleanAbsorbed(m: Tags, bs: Blocks, m': Tags, bs': Blocks, h: int, l: int)
    requires Clean(m, bs) && bs'.Keys == bs.Keys - {h} && l in bs' && h in m'.hdr && h + m'.hdr[h].size == End(bs', l)
    requires forall x :: x in m'.hdr && x !in bs ==> x in m.hdr && m'.hdr[x] == m.hdr[x]
    requires forall f :: f in m'.ftr && m'.ftr[f].magic == FOOTER_MAGIC ==> f in m.ftr && m'.ftr[f] == m.ftr[f]
    ensures CleanBut(m', bs', End(bs', l))
  {
    forall x | Accepts(m'.hdr, m'.ftr, x) ensures x in bs' || x + m'.hdr[x].size == End(bs', l) {
      assert x !in bs ==> Accepts(m.hdr, m.ftr, x);
    }
  }

  /** Once the footer of `k` leads to `k`, no stale header leads to that footer and back. */
  lemma CleanFooted(m: Tags, bs: Blocks, m': Tags, bs': Blocks, k: int)
    requires k in bs && CleanBut(m, bs, End(bs, k)) && bs'.Keys == bs.Keys
    requires m'.ftr == m.ftr[Foot(bs, k) := Footer(FOOTER_MAGIC, k)]
    requires forall x :: x in m'.hdr && x != k ==> x in m.hdr && m'.hdr[x] == m.hdr[x]
    ensures Clean(m', bs')
  {
    forall x | Accepts(m'.hdr, m'.ftr, x) ensures x in bs' {
      assert x != k ==> Accepts(m.hdr, m.ftr, x);
    }
  }

  /** Footers beyond the new end are gone. */
  lemma KeptClean(m: Tags, bs: Blocks, end: int, newEnd: int)
    requires CleanBut(m, bs, end) && newEnd + FOOTER <= end
    ensures Clean(Kept(m, newEnd), bs) && forall h :: Accepts(Kept(m, newEnd).hdr, Kept(m, newEnd).ftr, h) ==> h < newEnd
  {
    var k := Kept(m, newEnd);
    forall h | Accepts(k.hdr, k.ftr, h) ensures h in bs && h < newEnd {
      assert Accepts(m.hdr, m.ftr, h);
    }
  }

  /** The memory below the new end. */
  function Kept(m: Tags, newEnd: int): Tags {
    Tags(map a | a in m.hdr && a < newEnd :: m.hdr[a], map a | a in m.ftr && a < newEnd :: m.ftr[a], m.list)
  }

  lemma KeptTagged(m: Tags, bs: Blocks, end: int, newEnd: int, h: int)
    requires Tiling(bs, end) && h in bs && End(bs, h) == end && h <= newEnd && Tagged(m, bs, {h})
    ensures Tagged(Kept(m, newEnd), bs, {h})
  {
  }

  /** Freeing a block at once after its allocation restores every block exactly when the heap ends
      where it did before. */
  lemma RestoredIff(b0: Blocks, end0: int, b1: Blocks, b2: Blocks, end2: int, h: int)
    requires Tiling(b0, end0) && Coalesced(b0) && HEAP_BASE < end0 && Tiling(b2, end2) && Coalesced(b2) && HEAP_BASE < end2
    requires Allotted(b0, b1, h) && Allotted(b2, b1, h)
    ensures b2 == b0 <==> end2 == end0
  {
    if end2 == end0 {
      UsedDetermine(b0, b2, end0);
    }
    if b2 == b0 {
      EndUnique(b0, end0, end2);
    }
  }

  /** The blocks tell where the heap ends. */
  lemma EndUnique(bs: Blocks, end: int, end': int)
    requires Tiling(bs, end) && Tiling(bs, end') && HEAP_BASE < end && HEAP_BASE < end'
    ensures end == end'
  {
    var l := LastBlock(bs, end);
    var l' := LastBlock(bs, end');
    assert Sound(l, bs[l], end') && Sound(l', bs[l'], end);
  }

  /** Where `free` moves the end of the heap when the last block starts at `a` and is unused. */
  function ReleasedEnd(a: int, end: int): int {
    if end - a < MIN_SREL_SIZE || a <= HEAP_BASE + HEAP_INIT_SIZE then end
    else if a % PAGE == 0 then a
    else
      var start := a + HEADER + Pad(a) + if Pad(a) < MIN_BLOCK_SIZE + FOOTER then PAGE else 0;
      if MIN_SREL_SIZE <= end - start then start else end
  }

  lemma ShrinkBlocks(bs: Blocks, end: int, a: int, size: int)
    requires Tiling(bs, end) && Coalesced(bs) && a in bs && bs[a].used && End(bs, a) == end
    requires size % 4 == 0 && MIN_TOTAL <= size <= bs[a].size
    ensures var cs := bs[a := Blk(size, true)];
      Tiling(cs, a + size) && Coalesced(cs) && RightUsed(cs, a) && (LeftUsed(bs, a) ==> LeftUsed(cs, a))
    ensures Tiling(bs - {a}, a) && Coalesced(bs - {a})
  {
    hide Tiling;
    ShrinkTiles(bs, end, a, size);
    var cs := bs[a := Blk(size, true)];
    forall x | x in bs && x != a ensures End(cs, x) == End(bs, x) && x < End(bs, x) <= a {
      EndsBefore(bs, end, a, x);
    }
  }

  lemma EndsBefore(bs: Blocks, end: int, a: int, x: int)
    requires Tiling(bs, end) && a in bs && End(bs, a) == end && x in bs && x != a
    ensures x < End(bs, x) <= a
  {
    assert Sound(x, bs[x], end) && Sound(a, bs[a], end);
  }

  lemma OneBlock()
    ensures Tiling(map[HEAP_BASE := Blk(HEAP_INIT_SIZE, false)], HEAP_BASE + HEAP_INIT_SIZE)
  {
    var bs, end := map[HEAP_BASE := Blk(HEAP_INIT_SIZE, false)], HEAP_BASE + HEAP_INIT_SIZE;
    forall x | HEAP_BASE <= x < end ensures Owned(bs, x) {
      assert Within(bs, HEAP_BASE, x);
    }
  }

  lemma ShrinkTagged(m: Tags, bs: Blocks, end: int, newEnd: int, h: int, header: Header)
    requires Tiling(bs, end) && Listed(m.list, bs) && h in bs && End(bs, h) == end && bs[h].used
    requires h + MIN_TOTAL <= newEnd <= end && Tagged(m, bs, {h})
    ensures var m' := Tags(m.hdr[h := header], m.ftr[newEnd - FOOTER := Footer(FOOTER_MAGIC, h)], m.list);
      var cs := bs[h := Blk(newEnd - h, true)];
      Tagged(m', cs, {h}) && Listed(m.list, cs)
  {
  }

  lemma DropTagged(m: Tags, bs: Blocks, h: int)
    requires Listed(m.list, bs) && h in bs && bs[h].used && Tagged(m, bs, {h})
    ensures Tagged(m, bs - {h}, {}) && Listed(m.list, bs - {h})
  {
  }

  lemma LeftIs(bs: Blocks, end: int, h: int, l: int)
    requires Tiling(bs, end) && l in bs && End(bs, l) == h
    ensures LeftUsed(bs, h) <==> bs[l].used
  {
  }

  lemma NoLeft(bs: Blocks, end: int, h: int)
    requires Tiling(bs, end) && h < HEAP_BASE + MIN_TOTAL
    ensures LeftUsed(bs, h)
  {
  }

  /** Merging two neighbours in hand leaves the tags of all others in place. */
  lemma JoinTagged(m: Tags, bs: Blocks, end: int, l: int, r: int, hand: set<int>)
    requires Tiling(bs, end) && l in bs && r in bs && r == End(bs, l) && hand == {l, r} && Tagged(m, bs, hand)
    requires Listed(m.list, bs) && bs[l].used && bs[r].used
    ensures Tagged(m, Join(bs, l, true), {l}) && Listed(m.list, Join(bs, l, true))
  {
  }

  /** Writing the footer of a block in hand leaves the tags of all others in place. */
  lemma FootWritten(m: Tags, m': Tags, bs: Blocks, end: int, l: int, hand: set<int>)
    requires Tiling(bs, end) && l in bs && l in hand && Tagged(m, bs, hand) && m'.hdr == m.hdr
    requires forall f :: f in m.ftr && f != Foot(bs, l) ==> f in m'.ftr && m'.ftr[f] == m.ftr[f]
    ensures Tagged(m', bs, hand)
  {
  }

  lemma LeastSize(bs: Blocks, end: int, h: int)
    requires Tiling(bs, end) && h in bs
    ensures MIN_TOTAL <= bs[h].size && HEAP_BASE <= h && h % 4 == 0 && bs[h].size % 4 == 0 && End(bs, h) <= end
  {
  }

  lemma StillRightUsed(bs: Blocks, end: int, h: int, l: int)
    requires Tiling(bs, end) && h in bs && l in bs && RightUsed(bs, h)
    ensures RightUsed(bs[l := Blk(bs[l].size, true)], h)
  {
  }

  lemma AllottedNew(bs: Blocks, h: int, size: int)
    requires h in bs ==> !bs[h].used
    ensures Allotted(bs, bs[h := Blk(size, true)], h)
  {
  }

  lemma AllottedFront(bs: Blocks, cs: Blocks, h: int, off: int)
    requires Allotted(bs, cs, h) && off > 0
    ensures h + off !in cs ==> Allotted(bs, Cut(cs, h, off, false, true), h + off)
  {
  }

  lemma AllottedTail(bs: Blocks, cs: Blocks, h: int, need: int)
    requires Allotted(bs, cs, h) && need > 0
    ensures h + need !in cs ==> Allotted(bs, Cut(cs, h, need, true, false), h)
  {
  }

  lemma BestPad(bs: Blocks, h: int, need: nat)
    requires IsBest(bs, h, need, true)
    ensures Pad(h) == 0 || MIN_TOTAL <= Pad(h)
  {
  }

  /** The first block of the sorted list that serves is the smallest one. */
  lemma FirstIsBest(list: seq<int>, bs: Blocks, need: nat, align: bool, i: nat)
    requires Listed(list, bs) && i < |list| && list[i] in bs && Serves(list[i], bs[list[i]].size, need, align)
    requires forall j :: 0 <= j < i ==> list[j] in bs && !Serves(list[j], bs[list[j]].size, need, align)
    ensures IsBest(bs, list[i], need, align) && !NoneServes(bs, need, align)
  {
    hide Serves;
  }

  lemma NoFit(list: seq<int>, bs: Blocks, need: nat, align: bool)
    requires Listed(list, bs) && forall j :: 0 <= j < |list| ==> list[j] in bs && !Serves(list[j], bs[list[j]].size, need, align)
    ensures NoneServes(bs, need, align)
  {
    hide Serves;
  }

  lemma PadWords(bs: Blocks, end: int, h: int)
    requires Tiling(bs, end) && h in bs
    ensures Pad(h) % 4 == 0
  {
    hide Pad;
    assert Sound(h, bs[h], end);
    Words(h + HEADER + Pad(h));
  }

  lemma LastFreeIs(bs: Blocks, end: int, h: int)
    requires Tiling(bs, end)
    requires (h == end && LeftUsed(bs, end)) || (h in bs && !bs[h].used && End(bs, h) == end)
    ensures h == LastFree(bs, end)
  {
  }

  /** Exactly the block `k` became used; all other used blocks are as before. */
  ghost predicate Allotted(bs: Blocks, cs: Blocks, k: int) {
    && k in cs && cs[k].used && (k in bs ==> !bs[k].used)
    && forall a :: a != k ==>
      && ((a in cs && cs[a].used) <==> (a in bs && bs[a].used))
      && (a in bs && bs[a].used ==> a in cs && cs[a] == bs[a])
  }

  ghost predicate NoneServes(bs: Blocks, need: nat, align: bool) {
    forall a :: a in bs && !bs[a].used ==> !Serves(a, bs[a].size, need, align)
  }

  /** `h` is an unused block that serves, and the smallest one. */
  ghost predicate IsBest(bs: Blocks, h: int, need: nat, align: bool) {
    && h in bs && !bs[h].used && Serves(h, bs[h].size, need, align)
    && forall a :: a in bs && !bs[a].used && Serves(a, bs[a].size, need, align) ==> bs[h].size <= bs[a].size
  }

  /** The source of a request, told without the search. */
  lemma PlaceIs(list: seq<int>, bs: Blocks, end: int, need: nat, align: bool, g: int)
    requires Tiling(bs, end) && g == Source(list, bs, end, need, align) && (!NoneServes(bs, need, align) ==> IsBest(bs, g, need, align))
    ensures BestFit(bs, end, need, align, g, NewEnd(bs, end, need, align))
    ensures NoneServes(bs, need, align) <==> forall a :: !HasRoom(bs, a, need, align)
    ensures NoneServes(bs, need, align) ==> LastGap(bs, end, g)
    ensures PayloadAt(g, g + HEADER + Pad(g)) && forall p :: PayloadAt(g, p) ==> p == g + HEADER + Pad(g)
  {
    hide HasRoom, Serves, FirstPage, AlignUp, LastFree, Tiling, NoneServes, IsBest;
    BestFitIs(bs, end, need, align, g);
    LastGapIs(bs, end);
    FirstPageIs(g + HEADER);
  }

  /** The first block of the list that serves. */
  ghost function FirstFit(list: seq<int>, bs: Blocks, need: nat, align: bool): int {
    if list == [] then 0
    else if Serves(list[0], Size(bs, list[0]), need, align) then list[0]
    else FirstFit(list[1..], bs, need, align)
  }

  /** The block that a request is cut from. */
  ghost function Source(list: seq<int>, bs: Blocks, end: int, need: nat, align: bool): int {
    if NoneServes(bs, need, align) then LastFree(bs, end) else FirstFit(list, bs, need, align)
  }

  /** The end of the heap after the request. */
  ghost function NewEnd(bs: Blocks, end: int, need: nat, align: bool): int {
    if NoneServes(bs, need, align) then AlignUp(end + need + (if align then PAGE else 0)) else end
  }

  /** How much there is from `g` on for the request. */
  ghost function Room(bs: Blocks, end: int, g: int, need: nat, align: bool): int {
    if NoneServes(bs, need, align) then NewEnd(bs, end, need, align) - g else Size(bs, g)
  }

  /** Where a new last block starts: at the last block if it is unused, else at the end of the heap. */
  ghost function LastFree(bs: Blocks, end: int): int {
    if exists a :: a in bs && !bs[a].used && End(bs, a) == end
    then var a :| a in bs && !bs[a].used && End(bs, a) == end; a
    else end
  }

  lemma Words(x: int)
    requires x % PAGE == 0
    ensures x % 4 == 0
  {
  }

  lemma OnlyLast(bs: Blocks, end: int, l: int)
    requires Tiling(bs, end) && l in bs && End(bs, l) == end && bs[l].used
    ensures LeftUsed(bs, end)
  {
  }

  /** The footer at the end leads to the last block. */
  lemma LastTags(m: Tags, bs: Blocks, end: int) returns (l: int)
    requires Tiling(bs, end) && Tagged(m, bs, {}) && HEAP_BASE < end
    ensures l in bs && End(bs, l) == end && end - FOOTER in m.ftr && m.ftr[end - FOOTER].header == l && l < end
    ensures l in m.hdr && m.hdr[l].magic == HEADER_MAGIC && m.hdr[l].used == bs[l].used && m.hdr[l].size == bs[l].size
  {
    l := LastBlock(bs, end);
    assert FootedAt(m, l, bs[l]) && HeadedAt(m, l, bs[l]);
  }

  lemma UnusedListed(list: seq<int>, bs: Blocks, a: int)
    requires Listed(list, bs) && a in bs && !bs[a].used
    ensures a in list
  {
  }

  lemma GrowTagged(m: Tags, bs: Blocks, end: int, newEnd: int, h: int, header: Header)
    requires Tiling(bs, end) && Listed(m.list, bs) && end + MIN_TOTAL <= newEnd
    requires (h == end && h !in bs && Tagged(m, bs, {})) || (Tagged(m, bs, {h}) && h in bs && bs[h].used)
    ensures var m' := Tags(m.hdr[h := header], m.ftr[newEnd - FOOTER := Footer(FOOTER_MAGIC, h)], m.list);
      var cs := bs[h := Blk(newEnd - h, true)];
      Tagged(m', cs, {h}) && Listed(m.list, cs)
  {
  }

  lemma TailTagged(m: Tags, m': Tags, bs: Blocks, end: int, h: int, k: int)
    requires Tiling(bs, end) && h in bs && Tagged(m, bs, {h}) && Listed(m.list, bs) && bs[h].used
    requires h < k < End(bs, h) && k !in bs && m'.list == m.list
    requires forall a :: a in m.hdr && a != h && a != k ==> a in m'.hdr && m'.hdr[a] == m.hdr[a]
    requires forall f :: f in m.ftr && f != k - FOOTER && f != Foot(bs, h) ==> f in m'.ftr && m'.ftr[f] == m.ftr[f]
    ensures var cs := Cut(bs, h, k - h, true, true);
      Tagged(m', cs, {h, k}) && Listed(m'.list, cs) && forall a :: a in {h, k} ==> a !in m'.list
  {
  }

  lemma FrontDone(bs: Blocks, end: int, h: int, off: int)
    requires Tiling(bs, end) && h in bs && bs[h].used && RightUsed(bs, h) && MIN_TOTAL <= off && off + MIN_TOTAL <= bs[h].size
    ensures var cs := Cut(bs, h, off, true, true);
      && cs[h := Blk(cs[h].size, false)] == Cut(bs, h, off, false, true)
      && RightUsed(Cut(bs, h, off, false, true), h + off)
  {
    var ds := Cut(bs, h, off, false, true);
    assert Sound(h, bs[h], end) && End(ds, h + off) == End(bs, h);
    assert Cut(bs, h, off, true, true)[h := Blk(off, false)] == ds;
  }

  lemma FrontClean(m: Tags, bs: Blocks, m': Tags, bs': Blocks, h: int, k: int, footer: int)
    requires Clean(m, bs) && h in bs && bs' == Cut(bs, h, k - h, false, true) && h in m'.hdr && k in m'.hdr
    requires m'.hdr == m.hdr[h := m'.hdr[h]][k := m'.hdr[k]]
    requires m'.ftr == m.ftr[k - FOOTER := Footer(FOOTER_MAGIC, h)][footer := Footer(FOOTER_MAGIC, k)]
    ensures Clean(m', bs')
  {
    CleanKept(m, bs, m', bs');
  }

  lemma FrontTagged(m: Tags, m': Tags, bs: Blocks, end: int, h: int, k: int)
    requires Tiling(bs, end) && h in bs && Tagged(m, bs, {h}) && Listed(m.list, bs) && bs[h].used
    requires h < k < End(bs, h) && k !in bs && m'.list == m.list
    requires m'.hdr.Keys == m.hdr.Keys + {h} && (forall a :: a in m.hdr && a != h ==> m'.hdr[a] == m.hdr[a])
    requires forall f :: f in m.ftr && f != k - FOOTER ==> f in m'.ftr && m'.ftr[f] == m.ftr[f]
    ensures var cs := Cut(bs, h, k - h, true, true);
      Tagged(m', cs, {h, k}) && Listed(m'.list, cs) && forall a :: a in {h, k} ==> a !in m'.list
  {
  }

  lemma TakeBlocks(bs: Blocks, end: int, h: int)
    requires Tiling(bs, end) && Coalesced(bs) && h in bs && !bs[h].used
    ensures var bs' := bs[h := Blk(bs[h].size, true)];
      Tiling(bs', end) && Coalesced(bs') && RightUsed(bs', h) && LeftUsed(bs', h)
  {
    MarkTiles(bs, end, h, true);
    assert Sound(h, bs[h], end);
    UsedCoalesced(bs, h);
  }

  lemma EnterBlocks(bs: Blocks, end: int, x: int)
    requires Tiling(bs, end) && Coalesced(bs) && x in bs && RightUsed(bs, x) && LeftUsed(bs, x)
    ensures Tiling(bs[x := Blk(bs[x].size, false)], end) && Coalesced(bs[x := Blk(bs[x].size, false)])
  {
    MarkTiles(bs, end, x, false);
    assert Sound(x, bs[x], end);
    UnusedCoalesced(bs, x);
  }
}
