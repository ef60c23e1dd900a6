/**
 Boundary tags in memory: the headers, the footers and the sorted free list, and how they record the
 blocks of the heap.
 */
module HeapMemory {
  import opened Lists
  import opened HeapBlocks

  const HEADER_MAGIC: int := 0x50414548
  const FOOTER_MAGIC: int := 0x48454150
  const HEADER_RM_MAGIC: int := 0x48455252
  const FOOTER_RM_MAGIC: int := 0x52524548

  /** A header; `linked` stands for a non-null `prev` pointer. */
  datatype Header = Header(magic: int, size: int, linked: bool, used: bool)

  datatype Footer = Footer(magic: int, header: int)

  /** Memory seen as headers and footers; the free list holds header addresses. Addresses that head
      no block may hold anything. */
  datatype Tags = Tags(hdr: map<int, Header>, ftr: map<int, Footer>, list: seq<int>)

  /** The footer of block `a`. */
  function Foot(bs: Blocks, a: int): int
    requires a in bs
  {
    End(bs, a) - FOOTER
  }

  ghost predicate HeadedAt(m: Tags, a: int, b: Blk) {
    && a in m.hdr && m.hdr[a].magic == HEADER_MAGIC && m.hdr[a].size == b.size
    && m.hdr[a].used == b.used && (!b.used ==> m.hdr[a].linked)
  }

  ghost predicate FootedAt(m: Tags, a: int, b: Blk) {
    a + b.size - FOOTER in m.ftr && m.ftr[a + b.size - FOOTER] == Footer(FOOTER_MAGIC, a)
  }

  ghost predicate Tagged(m: Tags, bs: Blocks, hand: set<int>) {
    forall a :: a in bs && a !in hand ==> HeadedAt(m, a, bs[a]) && FootedAt(m, a, bs[a])
  }

  /** The free list is exactly the unused blocks, in order of size. */
  ghost predicate Listed(list: seq<int>, bs: Blocks) {
    && (forall a :: a in list <==> a in bs && !bs[a].used)
    && NoDuplicates(list)
    && SizeSorted(list, bs)
  }

  function Size(bs: Blocks, a: int): int {
    if a in bs then bs[a].size else 0
  }

  ghost predicate SizeSorted(list: seq<int>, bs: Blocks) {
    forall i, j :: 0 <= i < j < |list| ==> Size(bs, list[i]) <= Size(bs, list[j])
  }

  /** A block taken off the list: it counts as used from now on. */
  lemma TakenListed(list: seq<int>, bs: Blocks, a: int)
    requires Listed(list, bs) && a in list
    ensures Listed(Remove(list, a), bs[a := Blk(bs[a].size, true)])
  {
    hide Remove;
    RemoveOne(list, a);
    var bs' := bs[a := Blk(bs[a].size, true)];
    assert forall x :: Size(bs', x) == Size(bs, x);
    RemovedSorted(list, bs', a);
  }

  lemma RemovedSorted(list: seq<int>, bs: Blocks, a: int)
    requires SizeSorted(list, bs) && NoDuplicates(list) && a in list
    ensures SizeSorted(Remove(list, a), bs)
  {
    hide Remove, Size;
    var k :| 0 <= k < |list| && list[k] == a;
    RemoveAt(list, k);
    hide NoDuplicates;
    var r := Remove(list, a);
    forall i, j | 0 <= i < j < |r| ensures Size(bs, r[i]) <= Size(bs, r[j]) {
      assert r[i] == list[if i < k then i else i + 1];
      assert r[j] == list[if j < k then j else j + 1];
    }
  }

  /** A block entered where its size belongs. */
  lemma EnteredListed(list: seq<int>, bs: Blocks, a: int, k: int)
    requires Listed(list, bs) && a in bs && bs[a].used && 0 <= k <= |list|
    requires forall j :: 0 <= j < k ==> Size(bs, list[j]) < bs[a].size
    requires k < |list| ==> bs[a].size <= Size(bs, list[k])
    ensures Listed(list[..k] + [a] + list[k..], bs[a := Blk(bs[a].size, false)])
  {
  }

  /** What the headers of listed blocks say. */
  lemma ListedHeaders(m: Tags, bs: Blocks, hand: set<int>)
    requires Tagged(m, bs, hand) && Listed(m.list, bs) && forall a :: a in hand ==> a !in m.list
    ensures forall j :: 0 <= j < |m.list| ==>
      && m.list[j] in bs && !bs[m.list[j]].used && HeadedAt(m, m.list[j], bs[m.list[j]])
  {
    forall j | 0 <= j < |m.list| ensures m.list[j] in bs && !bs[m.list[j]].used && HeadedAt(m, m.list[j], bs[m.list[j]]) {
      assert m.list[j] in m.list;
    }
  }

  /** Writing headers and footers inside one block in hand does not touch the tags of the others. */
  lemma OtherTagged(m: Tags, m': Tags, bs: Blocks, end: int, h: int)
    requires Tiling(bs, end) && h in bs && Tagged(m, bs, {h})
    requires forall a :: a in m.hdr && !(h <= a < End(bs, h)) ==> a in m'.hdr && m'.hdr[a] == m.hdr[a]
    requires forall f :: f in m.ftr && !(h < f + FOOTER <= End(bs, h)) ==> f in m'.ftr && m'.ftr[f] == m.ftr[f]
    ensures Tagged(m', bs, {h})
  {
  }

  /** The tests that `free` makes on a header and on the footer it leads to. */
  predicate Accepts(hdr: map<int, Header>, ftr: map<int, Footer>, h: int) {
    && h in hdr && hdr[h].magic == HEADER_MAGIC && hdr[h].used
    && h + hdr[h].size - FOOTER in ftr && ftr[h + hdr[h].size - FOOTER] == Footer(FOOTER_MAGIC, h)
  }

  /** Only blocks pass these tests; or else stale headers whose footer ends at `e`. */
  ghost predicate CleanBut(m: Tags, bs: Blocks, e: int) {
    forall h :: Accepts(m.hdr, m.ftr, h) ==> h in bs || h + m.hdr[h].size == e
  }

  ghost predicate Clean(m: Tags, bs: Blocks) {
    forall h :: Accepts(m.hdr, m.ftr, h) ==> h in bs
  }

  /** No block goes, and only headers of blocks and footers that lead to blocks are written. */
  ghost predicate Tidy(m: Tags, bs: Blocks, m': Tags, bs': Blocks) {
    && (forall h :: h in bs ==> h in bs')
    && (forall h :: h in m'.hdr && h !in bs' ==> h in m.hdr && m'.hdr[h] == m.hdr[h])
    && (forall f :: f in m'.ftr && m'.ftr[f].magic == FOOTER_MAGIC && m'.ftr[f].header !in bs' ==> f in m.ftr && m'.ftr[f] == m.ftr[f])
  }

  lemma CleanKept(m: Tags, bs: Blocks, m': Tags, bs': Blocks)
    requires Clean(m, bs) && Tidy(m, bs, m', bs')
    ensures Clean(m', bs')
  {
    forall h | Accepts(m'.hdr, m'.ftr, h) ensures h in bs' {
      assert h !in bs' ==> Accepts(m.hdr, m.ftr, h);
    }
  }
}
