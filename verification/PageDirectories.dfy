/**
 Page directories: who owns which page table and which frame after `clone`, and what `free_tables` and
 `free_kstack_tables` give back. A table is named by its physical page.
 */
module PageDirectories {
  import opened Options

  datatype Page = Page(present: bool, flags: nat, frame: nat)

  datatype Entry = Entry(present: bool, ps: bool, flags: nat, addr: nat)

  datatype Dir = Dir(tables: seq<Option<nat>>, entries: seq<Entry>)

  type Content = seq<nat>

  /** The live page tables and the allocated frames. */
  datatype Mem = Mem(tables: map<nat, seq<Page>>, frames: map<nat, Content>)

  const N: nat := 1024
  const HIGHMEM: nat := 768
  const HEAP_FIRST: nat := 832
  const KSTACK_FIRST: nat := 1023
  const KSTACK_LAST: nat := 1023
  const ABSENT := Page(false, 0, 0)
  const NO_ENTRY := Entry(false, false, 0, 0)

  predicate Kstack(i: nat) {
    KSTACK_FIRST <= i <= KSTACK_LAST
  }

  /** What `clone` does with one slot of the directory. */
  datatype Kind = Kernel | Share | Copy | Empty | Halt

  function KindOf(d: Dir, kernel: Dir, i: nat, vm: bool, bot: int, top: int): Kind
    requires i < N && Full(d) && Full(kernel)
  {
    if HIGHMEM <= i && !Kstack(i) then Kernel
    else if d.tables[i].Some? then
      if vm && !Kstack(i) && !(bot <= i <= top) then Share else Copy
    else if d.entries[i].present && d.entries[i].ps then
      if d.entries[i] == kernel.entries[i] then Kernel else Halt
    else Empty
  }

  predicate Full(d: Dir) {
    |d.tables| == N && |d.entries| == N
  }

  /** The frames that a table maps. */
  function FramesOf(pages: seq<Page>): set<nat> {
    set j | 0 <= j < |pages| && pages[j].present :: pages[j].frame
  }

  /** The table is live, and maps different allocated frames. */
  ghost predicate OwnTable(m: Mem, t: nat) {
    && t in m.tables && |m.tables[t]| == N && FramesOf(m.tables[t]) <= m.frames.Keys
    && forall j, k :: 0 <= j < k < N && m.tables[t][j].present && m.tables[t][k].present ==> m.tables[t][j].frame != m.tables[t][k].frame
  }

  /** The table in slot `i`. */
  function TableAt(d: Dir, i: nat): nat {
    if i < |d.tables| && d.tables[i].Some? then d.tables[i].value else 0
  }

  function PagesAt(m: Mem, d: Dir, i: nat): seq<Page> {
    if TableAt(d, i) in m.tables then m.tables[TableAt(d, i)] else []
  }

  /** The tables in the slots `js` are different ones, and so are all the frames they map. */
  ghost predicate Owns(m: Mem, d: Dir, js: set<nat>) {
    && (forall i :: i in js ==> i < |d.tables| && d.tables[i].Some? && OwnTable(m, TableAt(d, i)))
    && (forall i, k :: i in js && k in js && i != k ==>
          TableAt(d, i) != TableAt(d, k) && FramesOf(PagesAt(m, d, i)) !! FramesOf(PagesAt(m, d, k)))
  }

  function Tables(d: Dir, js: set<nat>): set<nat> {
    set i | i in js :: TableAt(d, i)
  }

  function Frames(m: Mem, d: Dir, js: set<nat>): set<nat> {
    set i, f | i in js && f in FramesOf(PagesAt(m, d, i)) :: f
  }

  /** `m` without the tables and frames of the slots `js`. */
  function Without(m: Mem, d: Dir, js: set<nat>): Mem {
    Mem(m.tables - Tables(d, js), m.frames - Frames(m, d, js))
  }

  /** `copy` has the presence and flags of `page`, and a frame of its own with the same contents. */
  ghost predicate PageCopied(m: Mem, page: Page, m': Mem, copy: Page) {
    if !page.present then copy == ABSENT
    else
      && copy.present && copy.flags == page.flags
      && page.frame in m.frames && copy.frame in m'.frames && copy.frame !in m.frames
      && m'.frames[copy.frame] == m.frames[page.frame]
  }

  ghost predicate TableCopied(m: Mem, t: nat, m': Mem, u: nat) {
    && t in m.tables && u in m'.tables && u !in m.tables && |m.tables[t]| == N && |m'.tables[u]| == N
    && forall j :: 0 <= j < N ==> PageCopied(m, m.tables[t][j], m', m'.tables[u][j])
  }

  /** Every table of the directory in memory is whole and maps allocated frames. */
  ghost predicate Sound(m: Mem, d: Dir) {
    && Full(d)
    && forall i :: 0 <= i < N && d.tables[i].Some? ==>
      d.tables[i].value in m.tables && |m.tables[d.tables[i].value]| == N && FramesOf(m.tables[d.tables[i].value]) <= m.frames.Keys
  }

  /** Slot `i` of the clone. */
  ghost predicate SlotCloned(m: Mem, d: Dir, kernel: Dir, kind: Kind, m': Mem, c: Dir, i: nat)
    requires i < N && Full(d) && Full(kernel) && i < |c.tables| && i < |c.entries|
  {
    match kind
    case Kernel => c.tables[i] == kernel.tables[i] && c.entries[i] == kernel.entries[i]
    case Share => c.tables[i] == d.tables[i] && c.entries[i] == d.entries[i]
    case Copy =>
      && d.tables[i].Some? && c.tables[i].Some? && TableCopied(m, d.tables[i].value, m', c.tables[i].value)
      && c.entries[i] == d.entries[i].(addr := c.tables[i].value)
    case Empty => c.tables[i].None? && c.entries[i] == NO_ENTRY
    case Halt => false
  }

  /** The slots below `n` that `clone` copies. */
  function Copies(d: Dir, kernel: Dir, vm: bool, bot: int, top: int, n: nat): set<nat>
    requires n <= N && Full(d) && Full(kernel)
  {
    set i: nat | i < n && KindOf(d, kernel, i, vm, bot, top).Copy?
  }

  /** The slots below `n` that `free_tables` frees. */
  function Unshared(c: Dir, shared: Dir, n: nat): set<nat>
    requires n <= |c.tables| && n <= |shared.tables|
  {
    set i: nat | i < n && c.tables[i].Some? && c.tables[i] != shared.tables[i] && !Kstack(i)
  }

  /** The slots below `n` that `free_kstack_tables` frees. */
  function KstackSlots(c: Dir, n: nat): set<nat>
    requires n <= |c.tables|
  {
    set i: nat | i < n && Kstack(i) && c.tables[i].Some?
  }

  /** `m1` has everything that `m` has. */
  ghost predicate Grew(m: Mem, m1: Mem) {
    && (forall t :: t in m.tables ==> t in m1.tables && m1.tables[t] == m.tables[t])
    && (forall f :: f in m.frames ==> f in m1.frames && m1.frames[f] == m.frames[f])
  }

  /** `m1` has, besides everything that `m` has, exactly the tables and frames of the slots `js`. */
  ghost predicate Extends(m: Mem, m1: Mem, c: Dir, js: set<nat>) {
    && Grew(m, m1)
    && m1.tables.Keys == m.tables.Keys + Tables(c, js) && Tables(c, js) !! m.tables.Keys
    && m1.frames.Keys == m.frames.Keys + Frames(m1, c, js) && Frames(m1, c, js) !! m.frames.Keys
  }

  /** The clone up to slot `n`. */
  ghost predicate Cloned(m: Mem, d: Dir, kernel: Dir, vm: bool, bot: int, top: int, m1: Mem, c: Dir, n: nat)
    requires n <= N && Full(d) && Full(kernel)
  {
    && Full(c) && Owns(m1, c, Copies(d, kernel, vm, bot, top, n)) && Extends(m, m1, c, Copies(d, kernel, vm, bot, top, n))
    && forall i :: 0 <= i < n ==> SlotCloned(m, d, kernel, KindOf(d, kernel, i, vm, bot, top), m1, c, i)
  }

  // What is promised of a clone, slot by slot

  /** The slot does not come from the kernel's directory as a matter of course. */
  predicate OwnSlot(i: nat) {
    i < HIGHMEM || Kstack(i)
  }

  /** A 4 MiB page without a table, which is not the kernel's. */
  predicate Foreign(d: Dir, kernel: Dir, i: nat)
    requires i < N && Full(d) && Full(kernel)
  {
    OwnSlot(i) && d.tables[i].None? && d.entries[i].present && d.entries[i].ps && d.entries[i] != kernel.entries[i]
  }

  /** Slots of the kernel are the kernel's. A table is linked exactly when the memory is shared, and the slot
      belongs to neither stack; otherwise the clone has a table of its own with the same pages. A slot without
      table stays without, or has the kernel's 4 MiB page. */
  ghost predicate Divided(m: Mem, d: Dir, kernel: Dir, vm: bool, bot: int, top: int, m1: Mem, c: Dir, i: nat)
    requires i < N && Full(d) && Full(kernel) && Full(c)
  {
    && (!OwnSlot(i) ==> c.tables[i] == kernel.tables[i] && c.entries[i] == kernel.entries[i])
    && (OwnSlot(i) && d.tables[i].Some? ==>
          && (c.tables[i] == d.tables[i] <==> vm && i < HIGHMEM && !(bot <= i <= top))
          && (c.tables[i] == d.tables[i] ==> c.entries[i] == d.entries[i])
          && (c.tables[i] != d.tables[i] ==>
                c.tables[i].Some? && TableCopied(m, d.tables[i].value, m1, c.tables[i].value) && c.entries[i].addr == c.tables[i].value
                && c.entries[i].flags == d.entries[i].flags && c.entries[i].present == d.entries[i].present && c.entries[i].ps == d.entries[i].ps))
    && (OwnSlot(i) && d.tables[i].None? ==>
          if d.entries[i].present && d.entries[i].ps
          then d.entries[i] == kernel.entries[i] && c.tables[i] == kernel.tables[i] && c.entries[i] == kernel.entries[i]
          else c.tables[i].None? && c.entries[i] == NO_ENTRY)
  }

  lemma CloneDivided(m: Mem, d: Dir, kernel: Dir, vm: bool, bot: int, top: int, m1: Mem, c: Dir, i: nat)
    requires i < N && Sound(m, d) && Full(kernel) && Cloned(m, d, kernel, vm, bot, top, m1, c, N)
    ensures Full(c) && Divided(m, d, kernel, vm, bot, top, m1, c, i)
  {
    hide Owns, Extends;
    assert SlotCloned(m, d, kernel, KindOf(d, kernel, i, vm, bot, top), m1, c, i);
  }

  /** What the directory shows at page `j` of slot `i`. */
  function ReadPage(m: Mem, d: Dir, i: nat, j: nat): Option<Content> {
    var pages := PagesAt(m, d, i);
    if j < |pages| && pages[j].present && pages[j].frame in m.frames then Some(m.frames[pages[j].frame]) else None
  }

  /** Writing there. */
  function WritePage(m: Mem, d: Dir, i: nat, j: nat, x: Content): Mem {
    var pages := PagesAt(m, d, i);
    if j < |pages| && pages[j].present && pages[j].frame in m.frames then m.(frames := m.frames[pages[j].frame := x]) else m
  }

  /** The slots in which parent and clone have the same table. */
  predicate Linked(vm: bool, bot: int, top: int, i: nat) {
    vm && i < HIGHMEM && !(bot <= i <= top)
  }

  /** The pages of a table that the clone does not share. */
  lemma OwnPages(m: Mem, d: Dir, kernel: Dir, vm: bool, bot: int, top: int, m1: Mem, c: Dir, i: nat, j: nat)
    requires i < N && j < N && OwnSlot(i) && Sound(m, d) && d.tables[i].Some? && Full(kernel)
    requires Cloned(m, d, kernel, vm, bot, top, m1, c, N)
    ensures Full(c) && Grew(m, m1) && |PagesAt(m, d, i)| == N && |PagesAt(m1, c, i)| == N && PagesAt(m1, d, i) == PagesAt(m, d, i)
    ensures PagesAt(m, d, i)[j].present ==> PagesAt(m, d, i)[j].frame in m.frames
    ensures if Linked(vm, bot, top, i) then PagesAt(m1, c, i) == PagesAt(m, d, i)
      else PageCopied(m, PagesAt(m, d, i)[j], m1, PagesAt(m1, c, i)[j])
  {
    hide Owns;
    CloneDivided(m, d, kernel, vm, bot, top, m1, c, i);
    assert PagesAt(m, d, i)[j].present ==> PagesAt(m, d, i)[j].frame in FramesOf(PagesAt(m, d, i));
  }

  /** The clone shows what the parent shows, and the parent still shows it. */
  lemma CloneReads(m: Mem, d: Dir, kernel: Dir, vm: bool, bot: int, top: int, m1: Mem, c: Dir, i: nat, j: nat)
    requires i < N && j < N && OwnSlot(i) && Sound(m, d) && d.tables[i].Some? && Full(kernel)
    requires Cloned(m, d, kernel, vm, bot, top, m1, c, N)
    ensures ReadPage(m1, c, i, j) == ReadPage(m, d, i, j) && ReadPage(m1, d, i, j) == ReadPage(m, d, i, j)
  {
    hide Cloned, Sound, PagesAt;
    OwnPages(m, d, kernel, vm, bot, top, m1, c, i, j);
  }

  /** What one of the two writes into a page the other sees exactly if the table is linked. */
  lemma CloneWrites(m: Mem, d: Dir, kernel: Dir, vm: bool, bot: int, top: int, m1: Mem, c: Dir, i: nat, j: nat, x: Content)
    requires i < N && j < N && OwnSlot(i) && Sound(m, d) && d.tables[i].Some? && Full(kernel)
    requires Cloned(m, d, kernel, vm, bot, top, m1, c, N) && ReadPage(m, d, i, j).Some?
    ensures var w := WritePage(m1, c, i, j, x);
      ReadPage(w, c, i, j) == Some(x) && ReadPage(w, d, i, j) == if Linked(vm, bot, top, i) then Some(x) else ReadPage(m, d, i, j)
    ensures var w := WritePage(m1, d, i, j, x);
      ReadPage(w, d, i, j) == Some(x) && ReadPage(w, c, i, j) == if Linked(vm, bot, top, i) then Some(x) else ReadPage(m, d, i, j)
  {
    hide Cloned, Sound;
    OwnPages(m, d, kernel, vm, bot, top, m1, c, i, j);
    CloneReads(m, d, kernel, vm, bot, top, m1, c, i, j);
  }

  /** And a write into a page of its own changes nothing at all that the parent sees. */
  lemma CloneKeepsApart(m: Mem, d: Dir, kernel: Dir, vm: bool, bot: int, top: int, m1: Mem, c: Dir, i: nat, j: nat, x: Content, k: nat, l: nat)
    requires i < N && j < N && OwnSlot(i) && Sound(m, d) && d.tables[i].Some? && Full(kernel) && !Linked(vm, bot, top, i)
    requires Cloned(m, d, kernel, vm, bot, top, m1, c, N) && k < N && l < N && d.tables[k].Some?
    ensures ReadPage(WritePage(m1, c, i, j, x), d, k, l) == ReadPage(m, d, k, l)
  {
    hide Cloned;
    OwnPages(m, d, kernel, vm, bot, top, m1, c, i, j);
    assert PagesAt(m1, d, k) == PagesAt(m, d, k);
    assert PagesAt(m, d, k)[l].present ==> PagesAt(m, d, k)[l].frame in FramesOf(PagesAt(m, d, k));
  }

  lemma HaltIs(d: Dir, kernel: Dir, vm: bool, bot: int, top: int, i: nat)
    requires i < N && Full(d) && Full(kernel)
    ensures KindOf(d, kernel, i, vm, bot, top).Halt? <==> Foreign(d, kernel, i)
  {
  }

  /** A page directory in memory. */
  class PageDir {
    var tables: seq<Option<nat>>
    var entries: seq<Entry>

    constructor (d: Dir)
      ensures Now() == d
    {
      tables, entries := d.tables, d.entries;
    }

    function Now(): Dir
      reads this
    {
      Dir(tables, entries)
    }

    method Set(i: nat, table: Option<nat>, entry: Entry)
      requires i < |tables| && i < |entries|
      modifies this
      ensures Now() == Put(old(Now()), i, table, entry)
    {
      tables, entries := tables[i := table], entries[i := entry];
    }
  }

  function Put(d: Dir, i: nat, table: Option<nat>, entry: Entry): Dir
    requires i < |d.tables| && i < |d.entries|
  {
    Dir(d.tables[i := table], d.entries[i := entry])
  }

  class Paging {
    var tables: map<nat, seq<Page>>
    var frames: map<nat, Content>

    function Now(): Mem
      reads this
    {
      Mem(tables, frames)
    }

    constructor ()
      ensures Now() == Mem(map[], map[])
    {
      tables, frames := map[], map[];
    }

    /** `alloc_frames`: some frame that is not allocated. */
    method AllocFrame(content: Content) returns (f: nat)
      modifies this`frames
      ensures f !in old(frames) && frames == old(frames)[f := content]
    {
      f := Fresh(frames.Keys);
      frames := frames[f := content];
    }

    /** `free_frames`: the frame must be allocated. */
    method FreeFrame(f: nat)
      requires f in frames
      modifies this`frames
      ensures frames == old(frames) - {f}
    {
      frames := frames - {f};
    }

    /** The part of `get_page` that makes a missing table. */
    method MakeTable(d: PageDir, i: nat, flags: nat)
      requires i < N && Full(d.Now())
      modifies this`tables, d
      ensures old(d.tables[i]).Some? ==> tables == old(tables) && d.Now() == old(d.Now())
      ensures old(d.tables[i]).None? ==>
        var t := TableAt(d.Now(), i);
        && t !in old(tables) && tables == old(tables)[t := seq(N, _ => ABSENT)]
        && d.Now() == Put(old(d.Now()), i, Some(t), Entry(true, false, flags, t))
    {
      if d.tables[i].None? {
        var t := Fresh(tables.Keys);
        tables := tables[t := seq(N, _ => ABSENT)];
        d.Set(i, Some(t), Entry(true, false, flags, t));
      }
    }

    /** The kernel's directory, as `init` makes it: 4 MiB pages for the identity map, empty tables from the
        heap on. */
    method InitKernel(k: PageDir, rw: nat)
      requires k.Now() == Dir(seq(N, _ => None), seq(N, _ => NO_ENTRY)) && Now() == Mem(map[], map[])
      modifies this`tables, k
      ensures KernelDir(k.Now()) && Sound(Now(), k.Now()) && EmptyTables(Now(), k.Now(), N)
      ensures forall i :: 0 <= i < HEAP_FIRST ==>
        k.entries[i] == if i < HIGHMEM then NO_ENTRY else Entry(true, true, rw, (i - HIGHMEM) * N)
    {
      var i := HIGHMEM;
      while i < HEAP_FIRST
        invariant HIGHMEM <= i <= HEAP_FIRST && Full(k.Now()) && Now() == Mem(map[], map[])
        invariant forall j :: 0 <= j < N ==> k.tables[j].None?
        invariant forall j :: 0 <= j < N ==>
          k.entries[j] == if HIGHMEM <= j < i then Entry(true, true, rw, (j - HIGHMEM) * N) else NO_ENTRY
      {
        k.Set(i, None, Entry(true, true, rw, (i - HIGHMEM) * N));
        i := i + 1;
      }
      ghost var low := k.entries;
      while i < N
        invariant HEAP_FIRST <= i <= N && Full(k.Now()) && EmptyTables(Now(), k.Now(), i)
        invariant forall j :: 0 <= j < N && !(HEAP_FIRST <= j < i) ==> k.tables[j].None? && k.entries[j] == low[j]
      {
        ghost var m, d := Now(), k.Now();
        MakeTable(k, i, rw);
        OneMoreTable(m, d, Now(), k.Now(), i, rw);
        i := i + 1;
      }
      TablesSound(Now(), k.Now());
    }

    /** `page_table::clone`. */
    method CloneTable(t: nat) returns (u: nat)
      requires t in tables && |tables[t]| == N && FramesOf(tables[t]) <= frames.Keys
      modifies this
      ensures TableCopied(old(Now()), t, Now(), u) && OwnTable(Now(), u)
      ensures tables == old(tables)[u := tables[u]]
      ensures frames.Keys == old(frames).Keys + FramesOf(tables[u]) && FramesOf(tables[u]) !! old(frames).Keys
      ensures forall f :: f in old(frames) ==> frames[f] == old(frames)[f]
    {
      u := Fresh(tables.Keys);
      var pages, copy := tables[t], seq(N, _ => ABSENT);
      ghost var m := Now();
      var i := 0;
      while i < N
        invariant 0 <= i <= N && |copy| == N && tables == old(tables)
        invariant forall j :: 0 <= j < i ==> PageCopied(m, pages[j], Now(), copy[j])
        invariant forall j :: i <= j < N ==> copy[j] == ABSENT
        invariant forall j, k :: 0 <= j < k < i && copy[j].present && copy[k].present ==> copy[j].frame != copy[k].frame
        invariant forall f :: f in m.frames ==> f in frames && frames[f] == m.frames[f]
        invariant forall f :: f in frames ==> f in m.frames || f in FramesOf(copy)
        invariant FramesOf(copy) <= frames.Keys && FramesOf(copy) !! m.frames.Keys
      {
        if pages[i].present {
          assert pages[i].frame in FramesOf(pages);
          var f := AllocFrame(frames[pages[i].frame]);
          FramesAdded(copy, i, pages[i].(frame := f));
          copy := copy[i := pages[i].(frame := f)];
        }
        i := i + 1;
      }
      tables := tables[u := copy];
    }

    /** `page_table::free`: every frame is freed once. */
    method FreeTable(t: nat)
      requires OwnTable(Now(), t)
      modifies this`frames
      ensures frames == old(frames) - FramesOf(tables[t])
    {
      var pages := tables[t];
      var i := 0;
      while i < N
        invariant 0 <= i <= N && frames == old(frames) - FramesOf(pages[..i])
      {
        FramesTaken(pages, i);
        if pages[i].present {
          assert pages[i].frame in FramesOf(pages);
          FreeFrame(pages[i].frame);
        }
        i := i + 1;
      }
      assert pages[..N] == pages;
    }

    /** One round of the loop of `page_dir::clone`. */
    method CloneSlot(d: Dir, kernel: Dir, vm: bool, bot: int, top: int, ghost m: Mem, c: Dir, i: nat) returns (c1: Dir)
      requires i < N && Sound(m, d) && Full(kernel) && !KindOf(d, kernel, i, vm, bot, top).Halt?
      requires Cloned(m, d, kernel, vm, bot, top, Now(), c, i) && c.tables[i].None? && c.entries[i] == NO_ENTRY
      modifies this
      ensures Cloned(m, d, kernel, vm, bot, top, Now(), c1, i + 1)
      ensures forall k :: i < k < N ==> c1.tables[k] == c.tables[k] && c1.entries[k] == c.entries[k]
    {
      hide Owns, Extends, OwnTable, TableCopied, FramesOf, Copies;
      ghost var m1 := Now();
      c1 := c;
      if HIGHMEM <= i && !Kstack(i) {
        c1 := Put(c, i, kernel.tables[i], kernel.entries[i]);
      } else if d.tables[i].Some? {
        if vm && !Kstack(i) && !(bot <= i <= top) {
          c1 := Put(c, i, d.tables[i], d.entries[i]);
        } else {
          SourceTable(m, m1, d, c, kernel, vm, bot, top, i);
          var u := CloneTable(d.tables[i].value);
          c1 := Put(c, i, Some(u), d.entries[i].(addr := u));
          CopiedSince(m, m1, Now(), d.tables[i].value, u);
          CopyDone(m, d, kernel, vm, bot, top, m1, c, Now(), c1, i);
          return;
        }
      } else if d.entries[i].present && d.entries[i].ps {
        c1 := Put(c, i, kernel.tables[i], kernel.entries[i]);
      }
      OtherDone(m, d, kernel, vm, bot, top, m1, c, c1, i);
    }

    /** `page_dir::clone`; it halts (None) on a 4 MiB page that is not the kernel's. */
    method Clone(d: Dir, kernel: Dir, vm: bool, bot: int, top: int) returns (c: Option<Dir>)
      requires Sound(Now(), d) && Full(kernel)
      modifies this
      ensures c.None? <==> exists i: nat :: i < N && KindOf(d, kernel, i, vm, bot, top).Halt?
      ensures c.Some? ==> Cloned(old(Now()), d, kernel, vm, bot, top, Now(), c.value, N)
      ensures c.None? <==> exists i: nat :: i < N && Foreign(d, kernel, i)
      ensures c.Some? ==> Full(c.value) && forall i: nat :: i < N ==> Divided(old(Now()), d, kernel, vm, bot, top, Now(), c.value, i)
    {
      hide Cloned, FramesOf, KindOf, Foreign, Divided;
      forall i: nat | i < N ensures KindOf(d, kernel, i, vm, bot, top).Halt? <==> Foreign(d, kernel, i) {
        HaltIs(d, kernel, vm, bot, top, i);
      }
      ghost var m := Now();
      var r := Dir(seq(N, _ => None), seq(N, _ => NO_ENTRY));
      NothingCloned(m, d, kernel, vm, bot, top, r);
      var i := 0;
      while i < N
        invariant 0 <= i <= N && Full(r) && Cloned(m, d, kernel, vm, bot, top, Now(), r, i)
        invariant forall k: nat :: k < i ==> !KindOf(d, kernel, k, vm, bot, top).Halt?
        invariant forall k :: i <= k < N ==> r.tables[k].None? && r.entries[k] == NO_ENTRY
      {
        if KindOf(d, kernel, i, vm, bot, top).Halt? {
          return None;
        }
        r := CloneSlot(d, kernel, vm, bot, top, m, r, i);
        FullClone(m, d, kernel, vm, bot, top, Now(), r, i + 1);
        i := i + 1;
      }
      forall j: nat | j < N ensures Divided(m, d, kernel, vm, bot, top, Now(), r, j) {
        CloneDivided(m, d, kernel, vm, bot, top, Now(), r, j);
      }
      c := Some(r);
    }

    /** `page_dir::free_tables`: every table that is not the shared directory's goes, once, with its frames. */
    method FreeTables(c: PageDir, shared: Dir)
      requires Full(c.Now()) && Full(shared) && Owns(Now(), c.Now(), Unshared(c.Now(), shared, N))
      modifies this, c
      ensures Now() == Without(old(Now()), old(c.Now()), Unshared(old(c.Now()), shared, N))
      ensures Cleared(old(c.Now()), c.Now(), Unshared(old(c.Now()), shared, N))
    {
      hide Owns, OwnTable, FramesOf, Tables, Frames;
      ghost var m, d := Now(), c.Now();
      ghost var js := Unshared(d, shared, N);
      assert Unshared(d, shared, 0) == {};
      NothingFreed(m, d);
      var i := 0;
      while i < N
        invariant 0 <= i <= N && Now() == Without(m, d, Unshared(d, shared, i)) && Cleared(d, c.Now(), Unshared(d, shared, i))
      {
        if c.tables[i].Some? && c.tables[i] != shared.tables[i] && !Kstack(i) {
          assert Unshared(d, shared, i + 1) == Unshared(d, shared, i) + {i};
          FreeStep(m, d, js, Unshared(d, shared, i), i);
          var t := c.tables[i].value;
          FreeTable(t);
          tables := tables - {t};
          c.Set(i, None, NO_ENTRY);
        } else {
          assert Unshared(d, shared, i + 1) == Unshared(d, shared, i);
        }
        i := i + 1;
      }
    }

    /** `free_kstack_tables`. */
    method FreeKstackTables(c: PageDir)
      requires Full(c.Now()) && Owns(Now(), c.Now(), KstackSlots(c.Now(), N))
      modifies this, c
      ensures Now() == Without(old(Now()), old(c.Now()), KstackSlots(old(c.Now()), N))
      ensures Cleared(old(c.Now()), c.Now(), KstackSlots(old(c.Now()), N))
    {
      hide Owns, OwnTable, FramesOf, Tables, Frames;
      ghost var m, d := Now(), c.Now();
      ghost var js := KstackSlots(d, N);
      NothingFreed(m, d);
      var i := KSTACK_FIRST;
      assert KstackSlots(d, i) == {};
      while i <= KSTACK_LAST
        invariant KSTACK_FIRST <= i <= KSTACK_LAST + 1 && Now() == Without(m, d, KstackSlots(d, i)) && Cleared(d, c.Now(), KstackSlots(d, i))
      {
        if c.tables[i].Some? {
          assert KstackSlots(d, i + 1) == KstackSlots(d, i) + {i};
          FreeStep(m, d, js, KstackSlots(d, i), i);
          var t := c.tables[i].value;
          FreeTable(t);
          tables := tables - {t};
          c.Set(i, None, NO_ENTRY);
        } else {
          assert KstackSlots(d, i + 1) == KstackSlots(d, i);
        }
        i := i + 1;
      }
    }

    /** A process that is cloned and then goes: the memory is as it was. */
    method CloneAndFree(d: Dir, kernel: Dir, vm: bool, bot: int, top: int) returns (done: bool)
      requires Sound(Now(), d) && Sound(Now(), kernel) && KernelDir(kernel) && Made(d, kernel)
      modifies this
      ensures done <==> forall i: nat :: i < N ==> !KindOf(d, kernel, i, vm, bot, top).Halt?
      ensures done ==> Now() == old(Now())
    {
      hide Cloned, KindOf, Sound, KernelDir, Owns, Without, Cleared, KstackSlots, Unshared;
      ghost var m := Now();
      var c := Clone(d, kernel, vm, bot, top);
      if c.None? {
        return false;
      }
      ghost var m1 := Now();
      FullClone(m, d, kernel, vm, bot, top, m1, c.value, N);
      var p := new PageDir(c.value);
      var shared := if vm then d else kernel;
      KstackOwned(m, d, kernel, vm, bot, top, m1, c.value, shared);
      FreeKstackTables(p);
      ClearedFull(c.value, p.Now(), KstackSlots(c.value, N));
      CloneFreed(m, d, kernel, vm, bot, top, m1, c.value, shared, p.Now());
      FreeTables(p, shared);
      done := true;
    }
  }

  lemma ClearedFull(d: Dir, d1: Dir, js: set<nat>)
    requires Cleared(d, d1, js)
    ensures Full(d1)
  {
  }

  lemma NothingCloned(m: Mem, d: Dir, kernel: Dir, vm: bool, bot: int, top: int, c: Dir)
    requires Full(d) && Full(kernel) && Full(c)
    ensures Cloned(m, d, kernel, vm, bot, top, m, c, 0)
  {
  }

  lemma FullClone(m: Mem, d: Dir, kernel: Dir, vm: bool, bot: int, top: int, m1: Mem, c: Dir, n: nat)
    requires n <= N && Full(d) && Full(kernel) && Cloned(m, d, kernel, vm, bot, top, m1, c, n)
    ensures Full(c)
  {
  }

  /** The parent's table is still there when its turn comes. */
  lemma SourceTable(m: Mem, m1: Mem, d: Dir, c: Dir, kernel: Dir, vm: bool, bot: int, top: int, i: nat)
    requires i < N && Sound(m, d) && Full(kernel) && d.tables[i].Some? && Cloned(m, d, kernel, vm, bot, top, m1, c, i)
    ensures var t := d.tables[i].value;
      && Grew(m, m1) && t in m.tables && t in m1.tables && |m1.tables[t]| == N
      && FramesOf(m.tables[t]) <= m.frames.Keys && FramesOf(m1.tables[t]) <= m1.frames.Keys
  {
  }

  /** A copied slot is done. */
  lemma CopyDone(m: Mem, d: Dir, kernel: Dir, vm: bool, bot: int, top: int, m1: Mem, c: Dir, m2: Mem, c1: Dir, i: nat)
    requires i < N && Full(d) && Full(kernel) && Cloned(m, d, kernel, vm, bot, top, m1, c, i) && KindOf(d, kernel, i, vm, bot, top).Copy?
    requires d.tables[i].Some? && c1.tables == c.tables[i := Some(TableAt(c1, i))]
    requires c1.entries == c.entries[i := d.entries[i].(addr := TableAt(c1, i))]
    requires NewTable(m1, m2, TableAt(c1, i)) && TableCopied(m, d.tables[i].value, m2, TableAt(c1, i))
    ensures Cloned(m, d, kernel, vm, bot, top, m2, c1, i + 1)
  {
    hide Owns, Extends, OwnTable, TableCopied, FramesOf, KindOf;
    var js := Copies(d, kernel, vm, bot, top, i);
    assert Copies(d, kernel, vm, bot, top, i + 1) == js + {i};
    SlotSet(m, m1, c, c1, js, i);
    TableAdded(m, m1, m2, c1, js, i);
    forall k | 0 <= k < i ensures SlotCloned(m, d, kernel, KindOf(d, kernel, k, vm, bot, top), m2, c1, k) {
      SlotKept(m, d, kernel, KindOf(d, kernel, k, vm, bot, top), m1, c, m2, c1, k);
    }
  }

  /** Any other slot is done. */
  lemma OtherDone(m: Mem, d: Dir, kernel: Dir, vm: bool, bot: int, top: int, m1: Mem, c: Dir, c1: Dir, i: nat)
    requires i < N && Full(d) && Full(kernel) && Cloned(m, d, kernel, vm, bot, top, m1, c, i) && !KindOf(d, kernel, i, vm, bot, top).Copy?
    requires Full(c1) && (forall k :: 0 <= k < N && k != i ==> c1.tables[k] == c.tables[k] && c1.entries[k] == c.entries[k])
    requires SlotCloned(m, d, kernel, KindOf(d, kernel, i, vm, bot, top), m1, c1, i)
    ensures Cloned(m, d, kernel, vm, bot, top, m1, c1, i + 1)
  {
    hide Owns, Extends, OwnTable, TableCopied, FramesOf, KindOf;
    var js := Copies(d, kernel, vm, bot, top, i);
    assert Copies(d, kernel, vm, bot, top, i + 1) == js;
    SlotSet(m, m1, c, c1, js, i);
    forall k | 0 <= k < i ensures SlotCloned(m, d, kernel, KindOf(d, kernel, k, vm, bot, top), m1, c1, k) {
      SlotKept(m, d, kernel, KindOf(d, kernel, k, vm, bot, top), m1, c, m1, c1, k);
    }
  }

  lemma NothingFreed(m: Mem, d: Dir)
    ensures Without(m, d, {}) == m
  {
  }

  /** After the slots `js`, slot `n` still owns its table, and freeing it is the next step. */
  lemma FreeStep(m: Mem, d: Dir, all: set<nat>, js: set<nat>, n: nat)
    requires Owns(m, d, all) && js <= all && n in all && n !in js
    ensures var w := Without(m, d, js); var t := TableAt(d, n);
      && OwnTable(w, t) && t in m.tables && t in w.tables && w.tables[t] == m.tables[t]
      && Without(m, d, js + {n}) == Mem(w.tables - {t}, w.frames - FramesOf(w.tables[t]))
  {
    hide FramesOf;
    var w, t := Without(m, d, js), TableAt(d, n);
    assert OwnTable(m, t) && PagesAt(m, d, n) == m.tables[t];
    assert t !in Tables(d, js) && FramesOf(m.tables[t]) !! Frames(m, d, js);
    assert Tables(d, js + {n}) == Tables(d, js) + {t};
    assert Frames(m, d, js + {n}) == Frames(m, d, js) + FramesOf(m.tables[t]);
    assert w.tables - {t} == m.tables - Tables(d, js + {n});
  }

  /** The slots that are cleared, and those that stay. */
  ghost predicate Cleared(d: Dir, d1: Dir, js: set<nat>) {
    && Full(d) && Full(d1)
    && forall i: nat :: i < N ==> d1.tables[i] == (if i in js then None else d.tables[i]) && d1.entries[i] == (if i in js then NO_ENTRY else d.entries[i])
  }

  /** `m2` has, besides everything that `m1` has, exactly the table `u` and its frames. */
  ghost predicate NewTable(m1: Mem, m2: Mem, u: nat) {
    && u !in m1.tables && OwnTable(m2, u) && m2.tables == m1.tables[u := m2.tables[u]] && Grew(m1, m2)
    && m2.frames.Keys == m1.frames.Keys + FramesOf(m2.tables[u]) && FramesOf(m2.tables[u]) !! m1.frames.Keys
  }

  /** A new table in slot `n`. */
  lemma TableAdded(m: Mem, m1: Mem, m2: Mem, c: Dir, js: set<nat>, n: nat)
    requires Owns(m1, c, js) && Extends(m, m1, c, js) && n !in js && n < |c.tables| && c.tables[n].Some?
    requires NewTable(m1, m2, c.tables[n].value)
    ensures Owns(m2, c, js + {n}) && Extends(m, m2, c, js + {n})
  {
    hide Owns, OwnTable, FramesOf, Tables, Frames;
    OwnsMore(m1, m2, c, js, n);
    MoreTables(m1, m2, c, js, n);
  }

  lemma OwnsMore(m1: Mem, m2: Mem, c: Dir, js: set<nat>, n: nat)
    requires Owns(m1, c, js) && n !in js && n < |c.tables| && c.tables[n].Some? && NewTable(m1, m2, c.tables[n].value)
    ensures Owns(m2, c, js + {n})
  {
    hide FramesOf, OwnTable;
    forall i | i in js ensures TableAt(c, i) in m1.tables && PagesAt(m2, c, i) == PagesAt(m1, c, i)
      && FramesOf(PagesAt(m1, c, i)) <= m1.frames.Keys && OwnTable(m2, TableAt(c, i))
    {
      OwnTableKept(m1, m2, TableAt(c, i));
    }
  }

  lemma MoreTables(m1: Mem, m2: Mem, c: Dir, js: set<nat>, n: nat)
    requires Owns(m1, c, js) && n !in js && n < |c.tables| && c.tables[n].Some? && NewTable(m1, m2, c.tables[n].value)
    ensures Tables(c, js + {n}) == Tables(c, js) + {c.tables[n].value}
    ensures Frames(m2, c, js + {n}) == Frames(m1, c, js) + FramesOf(m2.tables[c.tables[n].value])
  {
    hide FramesOf, OwnTable;
    forall i | i in js ensures PagesAt(m2, c, i) == PagesAt(m1, c, i) {
      OwnTableKept(m1, m2, TableAt(c, i));
    }
    assert PagesAt(m2, c, n) == m2.tables[c.tables[n].value];
  }

  lemma OwnTableKept(m1: Mem, m2: Mem, t: nat)
    requires OwnTable(m1, t) && Grew(m1, m2)
    ensures OwnTable(m2, t) && t in m1.tables && m2.tables[t] == m1.tables[t] && FramesOf(m1.tables[t]) <= m1.frames.Keys
    ensures t in m2.tables
  {
  }

  /** A change of slot `n` does not concern the slots `js`. */
  lemma SlotSet(m: Mem, m1: Mem, c: Dir, c': Dir, js: set<nat>, n: nat)
    requires |c'.tables| == |c.tables| && n !in js && forall i :: 0 <= i < |c.tables| && i != n ==> c'.tables[i] == c.tables[i]
    requires Owns(m1, c, js) && Extends(m, m1, c, js)
    ensures Owns(m1, c', js) && Extends(m, m1, c', js)
  {
    hide OwnTable, FramesOf;
    assert forall i :: i in js ==> TableAt(c', i) == TableAt(c, i) && PagesAt(m1, c', i) == PagesAt(m1, c, i);
    assert Tables(c', js) == Tables(c, js) && Frames(m1, c', js) == Frames(m1, c, js);
  }

  /** Slots that are done stay done when memory grows and another slot changes. */
  lemma SlotKept(m: Mem, d: Dir, kernel: Dir, kind: Kind, m1: Mem, c: Dir, m2: Mem, c': Dir, i: nat)
    requires i < N && Full(d) && Full(kernel) && Full(c) && Full(c') && Grew(m1, m2)
    requires c'.tables[i] == c.tables[i] && c'.entries[i] == c.entries[i] && SlotCloned(m, d, kernel, kind, m1, c, i)
    ensures SlotCloned(m, d, kernel, kind, m2, c', i)
  {
  }

  /** A copy made in a memory that has grown since is a copy of the original table. */
  lemma CopiedSince(m: Mem, m1: Mem, m2: Mem, t: nat, u: nat)
    requires Grew(m, m1) && TableCopied(m1, t, m2, u) && t in m.tables && FramesOf(m.tables[t]) <= m.frames.Keys
    ensures TableCopied(m, t, m2, u)
  {
  }

  /** A kernel table in slot `i` that the freeing operations would take for a private one. */
  predicate Mistaken(d: Dir, kernel: Dir, shared: Dir, vm: bool, bot: int, top: int, i: nat)
    requires i < N && Full(d) && Full(kernel) && Full(shared)
  {
    KindOf(d, kernel, i, vm, bot, top).Kernel? && kernel.tables[i].Some? && (Kstack(i) || kernel.tables[i] != shared.tables[i])
  }

  /** The slots from the heap on and below `n` have different live tables, without pages. */
  ghost predicate EmptyTables(m: Mem, d: Dir, n: nat)
    requires n <= |d.tables| && n <= |d.entries|
  {
    && (forall i :: HEAP_FIRST <= i < n ==>
          d.tables[i].Some? && !d.entries[i].ps && d.tables[i].value in m.tables && m.tables[d.tables[i].value] == seq(N, _ => ABSENT))
    && (forall i, j :: HEAP_FIRST <= i < j < n ==> d.tables[i] != d.tables[j])
  }

  lemma OneMoreTable(m: Mem, d: Dir, m1: Mem, d1: Dir, i: nat, flags: nat)
    requires Full(d) && HEAP_FIRST <= i < N && EmptyTables(m, d, i)
    requires var t := TableAt(d1, i);
      t !in m.tables && m1.tables == m.tables[t := seq(N, _ => ABSENT)] && d1 == Put(d, i, Some(t), Entry(true, false, flags, t))
    ensures EmptyTables(m1, d1, i + 1)
  {
  }

  lemma TablesSound(m: Mem, d: Dir)
    requires Full(d) && EmptyTables(m, d, N) && forall i :: 0 <= i < HEAP_FIRST ==> d.tables[i].None?
    ensures KernelDir(d) && Sound(m, d)
  {
  }

  /** The kernel's directory as `init` leaves it: no table below the kernel, none in the identity map, and no
      4 MiB page in the kernel stack. */
  ghost predicate KernelDir(k: Dir) {
    && Full(k)
    && (forall i :: 0 <= i < HEAP_FIRST ==> k.tables[i].None?)
    && (forall i :: HEAP_FIRST <= i < N ==> k.tables[i].Some? && !k.entries[i].ps)
  }

  /** The directory has the kernel's tables in every kernel slot but the kernel stack. */
  ghost predicate Made(d: Dir, k: Dir) {
    Full(d) && Full(k) && forall i: nat :: HIGHMEM <= i < N && !Kstack(i) ==> d.tables[i] == k.tables[i]
  }

  /** No kernel table of such directories is ever mistaken for a private one. */
  lemma NeverMistaken(d: Dir, kernel: Dir, vm: bool, bot: int, top: int, i: nat)
    requires KernelDir(kernel) && Made(d, kernel) && i < N
    ensures !Mistaken(d, kernel, if vm then d else kernel, vm, bot, top, i)
  {
  }

  /** A clone is such a directory, whatever it is a clone of. */
  lemma CloneMade(m: Mem, d: Dir, kernel: Dir, vm: bool, bot: int, top: int, m1: Mem, c: Dir)
    requires Full(d) && Full(kernel) && Cloned(m, d, kernel, vm, bot, top, m1, c, N)
    ensures Made(c, kernel)
  {
    hide Owns, Extends, TableCopied;
    forall i: nat | HIGHMEM <= i < N && !Kstack(i) ensures c.tables[i] == kernel.tables[i] {
      assert SlotCloned(m, d, kernel, KindOf(d, kernel, i, vm, bot, top), m1, c, i);
    }
  }

  /** What the two freeing operations free is what `clone` copied, exactly when no kernel table is
      mistaken: its slot is the same in the shared directory. */
  lemma FreesCopies(m: Mem, d: Dir, kernel: Dir, vm: bool, bot: int, top: int, m1: Mem, c: Dir, shared: Dir)
    requires Sound(m, d) && Sound(m, kernel) && Cloned(m, d, kernel, vm, bot, top, m1, c, N) && shared == if vm then d else kernel
    ensures Unshared(c, shared, N) + KstackSlots(c, N) == Copies(d, kernel, vm, bot, top, N) <==>
      forall i: nat :: i < N ==> !Mistaken(d, kernel, shared, vm, bot, top, i)
  {
    hide Cloned, KindOf, Mistaken, Unshared, KstackSlots, Copies, FramesOf;
    FullClone(m, d, kernel, vm, bot, top, m1, c, N);
    var freed, copies := Unshared(c, shared, N) + KstackSlots(c, N), Copies(d, kernel, vm, bot, top, N);
    forall i: nat | i < N ensures i in freed <==> i in copies || Mistaken(d, kernel, shared, vm, bot, top, i) {
      SlotFreed(m, d, kernel, vm, bot, top, m1, c, shared, i);
    }
    forall i: nat | i < N && Mistaken(d, kernel, shared, vm, bot, top, i) ensures i in freed && i !in copies {
      SlotFreed(m, d, kernel, vm, bot, top, m1, c, shared, i);
    }
    Below(d, kernel, vm, bot, top, c, shared);
    if forall i: nat :: i < N ==> !Mistaken(d, kernel, shared, vm, bot, top, i) {
      assert freed == copies;
    }
  }

  /** A slot is freed exactly if it was copied, or holds a mistaken kernel table. */
  lemma SlotFreed(m: Mem, d: Dir, kernel: Dir, vm: bool, bot: int, top: int, m1: Mem, c: Dir, shared: Dir, i: nat)
    requires Sound(m, d) && Sound(m, kernel) && Cloned(m, d, kernel, vm, bot, top, m1, c, N) && shared == (if vm then d else kernel) && i < N
    ensures i in Unshared(c, shared, N) + KstackSlots(c, N) <==>
      i in Copies(d, kernel, vm, bot, top, N) || Mistaken(d, kernel, shared, vm, bot, top, i)
    ensures Mistaken(d, kernel, shared, vm, bot, top, i) ==> i !in Copies(d, kernel, vm, bot, top, N)
  {
  }

  lemma Below(d: Dir, kernel: Dir, vm: bool, bot: int, top: int, c: Dir, shared: Dir)
    requires Full(d) && Full(kernel) && Full(c) && Full(shared)
    ensures forall i :: i in Copies(d, kernel, vm, bot, top, N) ==> i < N
    ensures forall i :: i in Unshared(c, shared, N) ==> i < N
    ensures forall i :: i in KstackSlots(c, N) ==> i < N
  {
  }

  /** `clone` undone: the memory is what it was before. */
  lemma CopiesUndone(m: Mem, m1: Mem, c: Dir, js: set<nat>)
    requires Extends(m, m1, c, js)
    ensures Without(m1, c, js) == m
  {
  }

  /** Freeing in two parts, where the second finds the first part's slots cleared. */
  lemma FreedInParts(m: Mem, c: Dir, c1: Dir, js: set<nat>, ks: set<nat>)
    requires Owns(m, c, js + ks) && js !! ks && Cleared(c, c1, js)
    ensures Owns(Without(m, c, js), c1, ks) && Without(Without(m, c, js), c1, ks) == Without(m, c, js + ks)
  {
    hide FramesOf;
    var w := Without(m, c, js);
    forall k | k in ks ensures TableAt(c1, k) == TableAt(c, k) && PagesAt(w, c1, k) == PagesAt(m, c, k) && OwnTable(w, TableAt(c1, k)) {
      assert k < |c.tables| && c.tables[k].Some?;
      FreeStep(m, c, js + ks, js, k);
    }
    assert Tables(c1, ks) == Tables(c, ks) && Tables(c, js + ks) == Tables(c, js) + Tables(c, ks);
    assert Frames(w, c1, ks) == Frames(m, c, ks) && Frames(m, c, js + ks) == Frames(m, c, js) + Frames(m, c, ks);
    assert m.tables - (Tables(c, js) + Tables(c, ks)) == (m.tables - Tables(c, js)) - Tables(c, ks);
  }

  /** Copies are exactly what the two freeing operations free. */
  lemma FreesExactly(m: Mem, d: Dir, kernel: Dir, vm: bool, bot: int, top: int, m1: Mem, c: Dir, shared: Dir)
    requires Sound(m, d) && Sound(m, kernel) && Cloned(m, d, kernel, vm, bot, top, m1, c, N) && shared == if vm then d else kernel
    requires KernelDir(kernel) && Made(d, kernel)
    ensures Full(c) && KstackSlots(c, N) + Unshared(c, shared, N) == Copies(d, kernel, vm, bot, top, N)
  {
    hide Owns, Extends, FramesOf, Mistaken, SlotCloned, KernelDir, Made;
    forall i: nat | i < N ensures !Mistaken(d, kernel, shared, vm, bot, top, i) {
      NeverMistaken(d, kernel, vm, bot, top, i);
    }
    FreesCopies(m, d, kernel, vm, bot, top, m1, c, shared);
  }

  lemma KstackOwned(m: Mem, d: Dir, kernel: Dir, vm: bool, bot: int, top: int, m1: Mem, c: Dir, shared: Dir)
    requires Sound(m, d) && Sound(m, kernel) && Cloned(m, d, kernel, vm, bot, top, m1, c, N) && shared == if vm then d else kernel
    requires KernelDir(kernel) && Made(d, kernel)
    ensures Full(c) && Owns(m1, c, KstackSlots(c, N))
  {
    hide Owns, Extends, FramesOf, SlotCloned, KernelDir, Made, KstackSlots, Unshared, Copies;
    FreesExactly(m, d, kernel, vm, bot, top, m1, c, shared);
    OwnsPart(m1, c, KstackSlots(c, N), Copies(d, kernel, vm, bot, top, N));
  }

  /** `clone`, then `free_kstack_tables` and `free_tables` against the directory it was cloned from: each
      copied table and frame is freed once and nothing else is, so the memory is what it was. */
  lemma CloneFreed(m: Mem, d: Dir, kernel: Dir, vm: bool, bot: int, top: int, m1: Mem, c: Dir, shared: Dir, c1: Dir)
    requires Sound(m, d) && Sound(m, kernel) && Cloned(m, d, kernel, vm, bot, top, m1, c, N) && shared == if vm then d else kernel
    requires KernelDir(kernel) && Made(d, kernel) && Cleared(c, c1, KstackSlots(c, N))
    ensures var w := Without(m1, c, KstackSlots(c, N));
      Owns(w, c1, Unshared(c1, shared, N)) && Without(w, c1, Unshared(c1, shared, N)) == m
  {
    hide Owns, Extends, FramesOf, Without, SlotCloned, KernelDir, Made;
    var js, ks := KstackSlots(c, N), Unshared(c, shared, N);
    FreesExactly(m, d, kernel, vm, bot, top, m1, c, shared);
    assert Unshared(c1, shared, N) == ks;
    FreedInParts(m1, c, c1, js, ks);
    CopiesUndone(m, m1, c, js + ks);
  }

  lemma OwnsPart(m: Mem, d: Dir, js: set<nat>, all: set<nat>)
    requires Owns(m, d, all) && js <= all
    ensures Owns(m, d, js)
  {
  }

  /** A number outside of the set. */
  method Fresh(s: set<nat>) returns (x: nat)
    ensures x !in s
  {
    x := 0;
    var rest := s;
    while rest != {}
      invariant rest <= s && forall y :: y in s && y !in rest ==> y < x
      decreases |rest|
    {
      var y :| y in rest;
      rest := rest - {y};
      if x <= y {
        x := y + 1;
      }
    }
  }

  lemma FramesAdded(pages: seq<Page>, i: nat, page: Page)
    requires i < |pages| && !pages[i].present && page.present
    ensures FramesOf(pages[i := page]) == FramesOf(pages) + {page.frame}
  {
    var after := pages[i := page];
    forall f | f in FramesOf(pages) ensures f in FramesOf(after) {
      var j :| 0 <= j < |pages| && pages[j].present && pages[j].frame == f;
      assert after[j] == pages[j];
    }
    assert after[i] == page;
  }

  lemma FramesTaken(pages: seq<Page>, i: nat)
    requires i < |pages|
    ensures FramesOf(pages[..i + 1]) == FramesOf(pages[..i]) + if pages[i].present then {pages[i].frame} else {}
    ensures FramesOf(pages[..i]) <= FramesOf(pages)
    ensures (forall j :: 0 <= j < i && pages[j].present ==> pages[j].frame != pages[i].frame) ==> pages[i].frame !in FramesOf(pages[..i])
  {
  }
}
