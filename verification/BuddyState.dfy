/**
 The data of the buddy allocator - per-page orders, free lists, bitmaps and counters - and how they
 record the block structure.
 */
module BuddyState {
  import opened Frames
  import opened BuddyTiling
  import opened Lists

  /** The order field of a page that never headed a block. */
  const NO_ORDER: nat := 0xff

  /** `order[i]` belongs to page `i`; the other sequences are indexed by block order. */
  datatype State = State(order: seq<nat>, lists: seq<seq<nat>>, bits: seq<seq<bool>>, avail: seq<int>)

  ghost predicate Shape(s: State, n: nat) {
    && |s.order| == n
    && |s.lists| == |s.bits| == |s.avail| == MAX_ORDER + 1
    && forall x :: 0 <= x <= MAX_ORDER ==> |s.bits[x]| == Shr(n, x)
  }

  /** The free list of an order holds exactly the free blocks of that order, each once. */
  ghost predicate Listed(s: State, bs: Blocks)
    requires |s.lists| == |s.avail| == MAX_ORDER + 1
  {
    && (forall x: nat, h: nat :: x <= MAX_ORDER ==> (h in s.lists[x] <==> h in bs && bs[h] == Block(x, true)))
    && (forall x :: 0 <= x <= MAX_ORDER ==> NoDuplicates(s.lists[x]) && s.avail[x] == |s.lists[x]|)
  }

  /** The order field of a block head is the order of the block, except for a block in hand. */
  ghost predicate Ordered(s: State, bs: Blocks, hand: set<nat>) {
    forall h :: h in bs && h !in hand ==> h < |s.order| && s.order[h] == bs[h].order
  }

  /** For a page whose order field says `x`, bit `x` tells whether it heads a free block of order `x`.
      Bits of other orders may be stale. */
  ghost predicate MarkedAt(s: State, n: nat, i: nat)
    requires Shape(s, n) && i < n
  {
    var x := s.order[i];
    x <= MAX_ORDER ==>
      && Aligned(i, x) && i + Pow2(x) <= n && Shr(i, x) < Shr(n, x)
      && (s.bits[x][Shr(i, x)] <==> i in s.lists[x])
  }

  ghost predicate Marked(s: State, n: nat, hand: set<nat>)
    requires Shape(s, n)
  {
    forall i: nat :: i < n && i !in hand ==> MarkedAt(s, n, i)
  }

  /** The data record the blocks `bs`; the order fields and the bits of blocks in hand may lag behind. */
  ghost predicate Records(s: State, n: nat, bs: Blocks, hand: set<nat>, unmarked: set<nat>) {
    Shape(s, n) && Listed(s, bs) && Ordered(s, bs, hand) && Marked(s, n, unmarked)
  }

  // ---- Steps on the data ------------------------------------------------------

  /** Enters page `i` at the front of the free list of order `x`. */
  function Pushed(s: State, n: nat, i: nat, x: nat): State
    requires i < |s.order| && x < |s.lists| && x < |s.bits| && x < |s.avail| && Shr(i, x) < |s.bits[x]|
  {
    State(s.order[i := x], s.lists[x := [i] + s.lists[x]],
          s.bits[x := s.bits[x][Shr(i, x) := true]], s.avail[x := s.avail[x] + 1])
  }

  /** Takes page `b` out of the free list of order `x`, without touching its bit. */
  function Unlisted(s: State, b: nat, x: nat): State
    requires x < |s.lists| && x < |s.avail|
  {
    s.(lists := s.lists[x := Remove(s.lists[x], b)], avail := s.avail[x := s.avail[x] - 1])
  }

  /** Clears the bit of page `b` for order `x`. */
  function Unmarked(s: State, b: nat, x: nat): State
    requires x < |s.bits| && Shr(b, x) < |s.bits[x]|
  {
    s.(bits := s.bits[x := s.bits[x][Shr(b, x) := false]])
  }

  lemma PushedRecords(s: State, n: nat, bs: Blocks, i: nat, x: nat, lo: nat, hand: set<nat>, unmarked: set<nat>)
    requires Records(s, n, bs, hand, unmarked) && i in bs && bs[i] == Block(x, false) && Fits(i, x, lo, n)
    ensures Shr(i, x) < |s.bits[x]| && Records(Pushed(s, n, i, x), n, bs[i := Block(x, true)], hand - {i}, unmarked - {i})
  {
    hide Head, Pow2, Shr;
    ShrInRange(i, n, x);
    var s' := Pushed(s, n, i, x);
    assert i !in s.lists[x];
    forall j: nat | j < n && j !in unmarked - {i} ensures MarkedAt(s', n, j) {
      if j != i && s.order[j] == x && Shr(i, x) == Shr(j, x) {
        ShrInjective(i, j, x);
      }
    }
  }

  /** A free block is taken in hand; its bit still says free. */
  lemma UnlistedRecords(s: State, n: nat, bs: Blocks, b: nat, x: nat, hand: set<nat>, unmarked: set<nat>)
    requires Records(s, n, bs, hand, unmarked) && x <= MAX_ORDER && b in s.lists[x]
    ensures Records(Unlisted(s, b, x), n, bs[b := Block(x, false)], hand + {b}, unmarked + {b})
  {
    hide Head, Pow2, Shr;
    RemoveOne(s.lists[x], b);
    var s', bs' := Unlisted(s, b, x), bs[b := Block(x, false)];
    forall y: nat, h: nat | y <= MAX_ORDER ensures h in s'.lists[y] <==> h in bs' && bs'[h] == Block(y, true) {
      assert h in s.lists[y] <==> h in bs && bs[h] == Block(y, true);
    }
    forall j: nat | j < n && j !in unmarked + {b} ensures MarkedAt(s', n, j) {
      assert MarkedAt(s, n, j);
    }
  }

  /** Clearing the bit that the order field of a page in hand points to makes the page consistent. */
  lemma UnmarkedRecords(s: State, n: nat, bs: Blocks, b: nat, x: nat, lo: nat, hand: set<nat>, unmarked: set<nat>)
    requires Records(s, n, bs, hand, unmarked) && Fits(b, x, lo, n) && b in bs && !bs[b].free
    requires s.order[b] == x
    ensures Shr(b, x) < |s.bits[x]| && Records(Unmarked(s, b, x), n, bs, hand, unmarked - {b})
  {
    hide Head, Pow2, Shr;
    ShrInRange(b, n, x);
    var s' := Unmarked(s, b, x);
    forall j: nat | j < n && j !in unmarked - {b} ensures MarkedAt(s', n, j) {
      if j != b {
        assert MarkedAt(s, n, j);
        if s.order[j] == x && Shr(b, x) == Shr(j, x) {
          ShrInjective(b, j, x);
        }
      }
    }
  }
}
