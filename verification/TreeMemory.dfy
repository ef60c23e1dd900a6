/**
 Tree nodes in memory: a map from a node's address to its fields, and what it means for that
 memory to hold a given tree, as a whole or around a node in focus.
 */
module TreeMemory {
  import opened Trees

  /** The fields of a node. */
  datatype Cell = Cell(key: int, color: Color, l: Ptr, r: Ptr, p: Ptr)
  {
    function Kid(d: Dir): Ptr {
      if d == Left then l else r
    }

    function WithKid(d: Dir, v: Ptr): Cell {
      if d == Left then this.(l := v) else this.(r := v)
    }
  }

  type Mem = map<Ptr, Cell>

  function MkCell(d: Dir, key: int, color: Color, near: Ptr, far: Ptr, p: Ptr): Cell {
    if d == Left then Cell(key, color, near, far, p) else Cell(key, color, far, near, p)
  }

  /** Memory holds the subtree `t` below the node `par`. */
  ghost predicate Rep(m: Mem, t: Tree, par: Ptr) {
    t.Node? ==>
      && t.id in m && m[t.id] == Cell(t.key, t.color, Top(t.left), Top(t.right), par)
      && Rep(m, t.left, t.id) && Rep(m, t.right, t.id)
  }

  /** Memory holds the context `c`, whose hole contains the address `x`. */
  ghost predicate RepCtx(m: Mem, root: Ptr, c: Ctx, x: Ptr) {
    match c
    case Root => root == x
    case In(up, d, id, color, key, sib) =>
      && id in m && m[id] == MkCell(d, key, color, x, Top(sib), Up(up))
      && Rep(m, sib, id) && RepCtx(m, root, up, id)
  }

  ghost predicate View(m: Mem, root: Ptr, t: Tree, c: Ctx) {
    Rep(m, t, Up(c)) && RepCtx(m, root, c, Top(t))
  }

  /** The sentinel is childless. Its parent field is scratch space, and its colour is not always black. */
  ghost predicate Sentinel(m: Mem) {
    NIL in m && m[NIL].l == NIL && m[NIL].r == NIL
  }

  /** From the root pointer on, memory holds `t`, whatever the fields of the sentinel are. */
  ghost predicate Rooted(m: Mem, root: Ptr, t: Tree) {
    Rep(m, t, NIL) && root == Top(t) && Distinct(t) && NIL in m
  }

  /** Memory and root pointer hold `t`, with consistent child and parent links. */
  ghost predicate Linked(m: Mem, root: Ptr, t: Tree) {
    Rep(m, t, NIL) && root == Top(t) && Distinct(t) && Sentinel(m)
  }

  /** Memory seen from any node in focus is the same memory. */
  lemma {:induction false} ViewPlug(m: Mem, root: Ptr, t: Tree, c: Ctx)
    ensures View(m, root, t, c) <==> View(m, root, Plug(c, t), Root)
    decreases c
  {
    if c.In? {
      ViewPlug(m, root, Mk(c.d, t, c.id, c.color, c.key, c.sib), c.up);
    }
  }

  ghost predicate SameOn(m: Mem, m': Mem, s: set<Ptr>) {
    forall id :: id in s ==> id in m && id in m' && m'[id] == m[id]
  }

  lemma {:induction false} FrameRep(m: Mem, m': Mem, t: Tree, par: Ptr)
    requires Rep(m, t, par) && SameOn(m, m', Nodes(t))
    ensures Rep(m', t, par)
  {
    if t.Node? {
      FrameRep(m, m', t.left, t.id);
      FrameRep(m, m', t.right, t.id);
    }
  }

  lemma {:induction false} FrameCtx(m: Mem, m': Mem, root: Ptr, c: Ctx, x: Ptr)
    requires RepCtx(m, root, c, x) && SameOn(m, m', CtxNodes(c))
    ensures RepCtx(m', root, c, x)
  {
    if c.In? {
      FrameRep(m, m', c.sib, c.id);
      FrameCtx(m, m', root, c.up, c.id);
    }
  }

  /** A subtree gets a new parent by rewriting the parent field of its root. */
  lemma Reparent(m: Mem, m': Mem, t: Tree, par: Ptr, par': Ptr)
    requires Rep(m, t, par) && Distinct(t) && SameOn(m, m', Nodes(t) - {Top(t)})
    requires t.Node? ==> t.id in m' && m'[t.id] == m[t.id].(p := par')
    ensures Rep(m', t, par')
  {
  }

  /** A context gets a new occupant by rewriting one child field, or the root pointer. */
  lemma Rehang(m: Mem, m': Mem, root: Ptr, root': Ptr, c: Ctx, x: Ptr, x': Ptr)
    requires RepCtx(m, root, c, x) && DistinctCtx(c) && SameOn(m, m', CtxNodes(c) - {Up(c)})
    requires if c.Root? then root' == x' else root' == root && c.id in m' && m'[c.id] == m[c.id].WithKid(c.d, x')
    ensures RepCtx(m', root', c, x')
  {
    if c.In? {
      FrameRep(m, m', c.sib, c.id);
      FrameCtx(m, m', root, c.up, c.id);
    }
  }

  /** The four nodes a rotation touches are in memory and, the sentinel aside, are different. */
  ghost predicate RotatablePtrs(m: Mem, d: Dir, x: Ptr) {
    && x in m && x != NIL && NIL in m
    && var y, p := m[x].Kid(Other(d)), m[x].p;
    && y in m && y != NIL && y != x && p in m && p != x && p != y
    && var b := m[y].Kid(d);
    && b in m && b != x && b != y && (b == p ==> b == NIL)
  }

  /** What a rotation does to memory, cell by cell. */
  ghost predicate RotatedPtrs(m: Mem, m': Mem, root: Ptr, root': Ptr, d: Dir, x: Ptr)
    requires RotatablePtrs(m, d, x)
  {
    var y, p := m[x].Kid(Other(d)), m[x].p;
    var b := m[y].Kid(d);
    && m'.Keys == m.Keys
    && m'[x] == m[x].WithKid(Other(d), b).(p := y)
    && m'[y] == m[y].WithKid(d, x).(p := p)
    && (b != NIL ==> m'[b] == m[b].(p := x))
    && (p != NIL ==> m'[p] == m[p].WithKid(if x == m[p].l then Left else Right, y))
    && root' == (if p == NIL then y else root)
    && SameOn(m, m', m.Keys - {x, y, b, p})
    && m'[NIL] == m[NIL]
  }

  /** All fields that a rotation at `x` follows lead into memory. */
  ghost predicate Turnable(m: Mem, d: Dir, x: Ptr) {
    && x in m && m[x].p in m && NIL in m
    && var y := m[x].Kid(Other(d)); y in m && m[y].Kid(d) in m
  }

  /** The assignments of the rotation macro, one after another. */
  function Turned(m: Mem, root: Ptr, d: Dir, x: Ptr): (Mem, Ptr)
    requires x in m && m[x].Kid(Other(d)) in m
  {
    var y := m[x].Kid(Other(d));
    var b := m[y].Kid(d);
    var m1 := m[x := m[x].WithKid(Other(d), b)];
    var m2 := if b != NIL && b in m1 then m1[b := m1[b].(p := x)] else m1;
    var m3 := m2[y := m2[y].(p := m2[x].p)];
    var p := m3[x].p;
    var m4 := if p != NIL && p in m3 then m3[p := m3[p].WithKid(if x == m3[p].l then Left else Right, y)] else m3;
    var m5 := m4[y := m4[y].WithKid(d, x)];
    (m5[x := m5[x].(p := y)], if p == NIL then y else root)
  }

  /** Between nodes of a tree, these assignments are a rotation. */
  lemma TurnedRotates(m: Mem, root: Ptr, d: Dir, x: Ptr)
    requires RotatablePtrs(m, d, x)
    ensures Turnable(m, d, x) && var r := Turned(m, root, d, x); RotatedPtrs(m, r.0, root, r.1, d, x)
  {
  }

  /** `p` hangs below `g`, on one side only. */
  ghost predicate OneChild(m: Mem, g: Ptr, p: Ptr) {
    g == NIL || (g in m && ((m[g].l == p) != (m[g].r == p)))
  }

  /** The child of `p` opposite to `d` is the sentinel, which has no child on side `d`. */
  ghost predicate CutReady(m: Mem, p: Ptr, d: Dir) {
    && p in m && p != NIL && NIL in m && m[p].Kid(Other(d)) == NIL && m[NIL].Kid(d) == NIL
    && m[p].p in m && m[p].p != p
    && m[NIL].Kid(Other(d)) in m && m[NIL].Kid(Other(d)) != p && (m[NIL].Kid(Other(d)) == m[p].p ==> m[p].p == NIL)
  }

  /** `w` is the child of `p` opposite to `d`, and its own child on side `d` is the sentinel. */
  ghost predicate RaiseReady(m: Mem, p: Ptr, w: Ptr, d: Dir) {
    && p in m && p != NIL && Sentinel(m) && w in m && w != NIL && w != p && m[p].Kid(Other(d)) == w && m[p].Kid(d) != w
    && m[w].Kid(d) == NIL && m[w].p == p && m[p].p in m && m[p].p != p && m[p].p != w
  }

  /** The sentinel is in the place of `p`, which hangs below the sentinel. Only `p`, the sentinel, the
      parent of `p` and the nodes in `also` were written. */
  ghost predicate CutFrom(m: Mem, root: Ptr, m': Mem, root': Ptr, p: Ptr, d: Dir, also: set<Ptr>)
    requires p in m && m[p].p in m
  {
    var g := m[p].p;
    && m'.Keys == m.Keys && NIL in m' && m'[NIL].Kid(d) == p
    && SameOn(m, m', m.Keys - {p, NIL, g} - also)
    && (if g == NIL then root' == NIL else root' == root && m'[g] == m[g].WithKid(if p == m[g].l then Left else Right, NIL))
  }

  lemma RotatableView(m: Mem, root: Ptr, d: Dir, t: Tree, c: Ctx)
    requires t.Node? && Kid(t, Other(d)).Node? && Distinct(Plug(c, t)) && View(m, root, t, c) && NIL in m
    ensures RotatablePtrs(m, d, t.id)
  {
    NodesOfPlug(c, t);
    var y := Kid(t, Other(d));
    assert Rep(m, y, t.id) && Distinct(y);
    assert Rep(m, Kid(y, d), y.id);
  }

  lemma RotatedView(m: Mem, m': Mem, root: Ptr, root': Ptr, d: Dir, t: Tree, c: Ctx)
    requires t.Node? && Kid(t, Other(d)).Node? && Distinct(Plug(c, t)) && View(m, root, t, c)
    requires RotatablePtrs(m, d, t.id) && RotatedPtrs(m, m', root, root', d, t.id)
    ensures View(m', root', Rotated(d, t), c)
  {
    NodesOfPlug(c, t);
    NoSentinel(t);
    RotatedCtx(m, m', root, root', d, t, c);
    RotatedSubtrees(m, m', root, root', d, t, Up(c));
  }

  lemma RotatedCtx(m: Mem, m': Mem, root: Ptr, root': Ptr, d: Dir, t: Tree, c: Ctx)
    requires t.Node? && Kid(t, Other(d)).Node? && Distinct(t) && DistinctCtx(c) && Nodes(t) !! CtxNodes(c) && View(m, root, t, c)
    requires RotatablePtrs(m, d, t.id) && RotatedPtrs(m, m', root, root', d, t.id)
    ensures RepCtx(m', root', c, Kid(t, Other(d)).id)
  {
    var y := Kid(t, Other(d));
    var b := Kid(y, d);
    assert Rep(m, y, t.id);
    assert {t.id, y.id} <= Nodes(t) && Nodes(y) <= Nodes(t) && (b.Node? ==> b.id in Nodes(y));
    CtxNodesInMemory(m, root, c, t.id);
    NoSentinelCtx(c);
    assert CtxNodes(c) - {Up(c)} !! {t.id, y.id, Top(b), Up(c)};
    Rehang(m, m', root, root', c, t.id, y.id);
  }

  lemma RotatedSubtrees(m: Mem, m': Mem, root: Ptr, root': Ptr, d: Dir, t: Tree, par: Ptr)
    requires t.Node? && Kid(t, Other(d)).Node? && Distinct(t) && par !in Nodes(t) && Rep(m, t, par)
    requires RotatablePtrs(m, d, t.id) && RotatedPtrs(m, m', root, root', d, t.id)
    ensures Rep(m', Rotated(d, t), par)
  {
    var y := Kid(t, Other(d));
    var a, b, g := Kid(t, d), Kid(y, d), Kid(y, Other(d));
    assert Distinct(y) && Nodes(y) !! Nodes(a) && Rep(m, y, t.id);
    assert Distinct(b) && Nodes(b) !! Nodes(g);
    NodesInMemory(m, t, par);
    NoSentinel(a);
    NoSentinel(g);
    assert Nodes(a) !! {t.id, y.id, Top(b), par} && Nodes(g) !! {t.id, y.id, Top(b), par};
    FrameRep(m, m', a, t.id);
    Reparent(m, m', b, y.id, t.id);
    FrameRep(m, m', g, y.id);
  }

  lemma {:induction false} NodesInMemory(m: Mem, t: Tree, par: Ptr)
    requires Rep(m, t, par)
    ensures Nodes(t) <= m.Keys
  {
    if t.Node? {
      NodesInMemory(m, t.left, t.id);
      NodesInMemory(m, t.right, t.id);
    }
  }

  lemma {:induction false} CtxNodesInMemory(m: Mem, root: Ptr, c: Ctx, x: Ptr)
    requires RepCtx(m, root, c, x)
    ensures CtxNodes(c) <= m.Keys
  {
    if c.In? {
      NodesInMemory(m, c.sib, c.id);
      CtxNodesInMemory(m, root, c.up, c.id);
    }
  }

  /** Recolouring the node in focus, or the sentinel. */
  lemma PaintedView(m: Mem, root: Ptr, t: Tree, c: Ctx, color: Color)
    requires View(m, root, t, c) && Distinct(Plug(c, t)) && NIL in m
    ensures Top(t) in m && var m' := m[Top(t) := m[Top(t)].(color := color)];
      View(m', root, Paint(t, color), c) && Distinct(Plug(c, Paint(t, color))) && (t.Node? ==> t.id != NIL)
  {
    NodesOfPlug(c, t);
    NodesOfPlug(c, Paint(t, color));
    var m' := m[Top(t) := m[Top(t)].(color := color)];
    NodesInMemory(m, t, Up(c));
    CtxNodesInMemory(m, root, c, Top(t));
    if t.Node? {
      FrameRep(m, m', t.left, t.id);
      FrameRep(m, m', t.right, t.id);
      FrameCtx(m, m', root, c, t.id);
    } else {
      NoSentinelCtx(c);
      FrameCtx(m, m', root, c, NIL);
    }
  }

  /** A new leaf-level node occupies the empty hole of `c`. */
  lemma AttachedView(m: Mem, m': Mem, root: Ptr, root': Ptr, c: Ctx, z: Tree)
    requires View(m, root, Leaf, c) && DistinctCtx(c) && z.Node? && z.left.Leaf? && z.right.Leaf?
    requires z.id in m' && m'[z.id] == Cell(z.key, z.color, NIL, NIL, Up(c)) && SameOn(m, m', CtxNodes(c) - {Up(c)})
    requires if c.Root? then root' == z.id else root' == root && c.id in m' && m'[c.id] == m[c.id].WithKid(c.d, z.id)
    ensures View(m', root', z, c)
  {
    Rehang(m, m', root, root', c, NIL, z.id);
  }

  /** A subtree `s` takes the place of the node `u` above it. */
  lemma TransplantedView(m: Mem, m': Mem, root: Ptr, root': Ptr, c: Ctx, u: Ptr, s: Tree, par: Ptr)
    requires Rep(m, s, par) && RepCtx(m, root, c, u) && Distinct(s) && DistinctCtx(c)
    requires SameOn(m, m', Nodes(s) - {Top(s)}) && SameOn(m, m', CtxNodes(c) - {Up(c)})
    requires s.Node? ==> s.id in m' && m'[s.id] == m[s.id].(p := Up(c))
    requires if c.Root? then root' == Top(s) else root' == root && c.id in m' && m'[c.id] == m[c.id].WithKid(c.d, Top(s))
    ensures View(m', root', s, c)
  {
    Reparent(m, m', s, par, Up(c));
    Rehang(m, m', root, root', c, u, Top(s));
  }

  /** A node `y` from elsewhere takes over the place, the colour and the children of another. */
  lemma ReplacedView(m: Mem, m': Mem, root: Ptr, root': Ptr, c: Ctx, u: Ptr, y: Tree, pl: Ptr, pr: Ptr)
    requires y.Node? && Rep(m, y.left, pl) && Rep(m, y.right, pr) && RepCtx(m, root, c, u)
    requires Distinct(y) && DistinctCtx(c)
    requires y.id in m' && m'[y.id] == Cell(y.key, y.color, Top(y.left), Top(y.right), Up(c))
    requires y.left.Node? ==> y.left.id in m' && m'[y.left.id] == m[y.left.id].(p := y.id)
    requires y.right.Node? ==> y.right.id in m' && m'[y.right.id] == m[y.right.id].(p := y.id)
    requires SameOn(m, m', Nodes(y.left) - {Top(y.left)}) && SameOn(m, m', Nodes(y.right) - {Top(y.right)})
    requires SameOn(m, m', CtxNodes(c) - {Up(c)})
    requires if c.Root? then root' == y.id else root' == root && c.id in m' && m'[c.id] == m[c.id].WithKid(c.d, y.id)
    ensures View(m', root', y, c)
  {
    Reparent(m, m', y.left, pl, y.id);
    Reparent(m, m', y.right, pr, y.id);
    Rehang(m, m', root, root', c, u, y.id);
  }

  /** What `_transplant` writes. */
  function Transplanted(m: Mem, u: Ptr, v: Ptr): Mem
    requires u in m && v in m && m[u].p in m
  {
    var p := m[u].p;
    var m' := if p == NIL then m else m[p := m[p].WithKid(if u == m[p].l then Left else Right, v)];
    m'[v := m'[v].(p := p)]
  }

  lemma SpliceReady(m: Mem, root: Ptr, n: Tree, c: Ctx, e: Dir)
    requires n.Node? && View(m, root, n, c) && Distinct(n) && DistinctCtx(c) && Nodes(n) !! CtxNodes(c) && NIL in m
    ensures n.id in m && Top(Kid(n, e)) in m && m[n.id].p == Up(c) && Up(c) in m
    ensures n.id != Up(c) && n.id != Top(Kid(n, e)) && (Top(Kid(n, e)) == Up(c) ==> Up(c) == NIL)
    ensures c.In? ==> (n.id == m[c.id].l <==> c.d == Left)
  {
    var s := Kid(n, e);
    assert Rep(m, s, n.id);
    assert s.Node? ==> s.id in Nodes(n);
  }

  /** A node's child takes its place. */
  lemma SplicedView(m: Mem, root: Ptr, root': Ptr, n: Tree, c: Ctx, e: Dir)
    requires n.Node? && View(m, root, n, c) && Distinct(n) && DistinctCtx(c) && Nodes(n) !! CtxNodes(c) && NIL in m
    requires n.id in m && Top(Kid(n, e)) in m && m[n.id].p in m && root' == if c.Root? then Top(Kid(n, e)) else root
    ensures View(Transplanted(m, n.id, Top(Kid(n, e))), root', Kid(n, e), c)
  {
    var s := Kid(n, e);
    var m' := Transplanted(m, n.id, Top(s));
    SpliceReady(m, root, n, c, e);
    NodesInMemory(m, s, n.id);
    CtxNodesInMemory(m, root, c, n.id);
    assert SameOn(m, m', m.Keys - {Top(s), Up(c)});
    assert NIL !in Nodes(s) && NIL !in CtxNodes(c) by { NoSentinel(s); NoSentinelCtx(c); }
    TransplantedView(m, m', root, root', c, n.id, s, n.id);
  }

  lemma {:induction false} NoSentinel(t: Tree)
    requires Distinct(t)
    ensures NIL !in Nodes(t)
  {
    if t.Node? {
      NoSentinel(t.left);
      NoSentinel(t.right);
    }
  }

  lemma {:induction false} NoSentinelCtx(c: Ctx)
    requires DistinctCtx(c)
    ensures NIL !in CtxNodes(c)
  {
    if c.In? {
      NoSentinel(c.sib);
      NoSentinelCtx(c.up);
    }
  }

  /** The leftmost node `y` of the right subtree of `n` is out of its place and holds the rest `r` of
      that subtree; `n` still hangs in `c` and still holds its left subtree. */
  ghost predicate Detached(m: Mem, root: Ptr, n: Tree, c: Ctx, y: Ptr, key: int, r: Tree)
    requires n.Node?
  {
    && Sentinel(m) && Rep(m, n.left, n.id) && Rep(m, r, y) && RepCtx(m, root, c, n.id)
    && n.id in m && m[n.id].l == Top(n.left) && m[n.id].color == n.color && m[n.id].p == Up(c)
    && y in m && m[y].key == key && m[y].r == Top(r)
  }

  /** What memory holds once `y` has taken over from `n`. */
  lemma AdoptedView(m: Mem, m': Mem, root: Ptr, root': Ptr, n: Tree, c: Ctx, y: Tree)
    requires n.Node? && n.left.Node? && y.Node? && y.left == n.left && y.color == n.color
    requires Distinct(n.left) && Distinct(y) && DistinctCtx(c) && Nodes(y) !! CtxNodes(c)
    requires Detached(m, root, n, c, y.id, y.key, y.right)
    requires m'.Keys == m.Keys && SameOn(m, m', m.Keys - {y.id, n.left.id, Up(c)})
    requires m'[y.id] == Cell(y.key, y.color, n.left.id, Top(y.right), Up(c))
    requires n.left.id in m && m'[n.left.id] == m[n.left.id].(p := y.id)
    requires if c.Root? then root' == y.id else root' == root && c.id in m && m'[c.id] == m[c.id].WithKid(c.d, y.id)
    ensures View(m', root', y, c)
  {
    NodesInMemory(m, n.left, n.id);
    NodesInMemory(m, y.right, y.id);
    CtxNodesInMemory(m, root, c, n.id);
    NoSentinel(n.left);
    NoSentinel(y.right);
    NoSentinelCtx(c);
    assert y.right.Node? ==> m'[y.right.id] == m[y.right.id] && y.right.id in Nodes(y.right);
    ReplacedView(m, m', root, root', c, n.id, y, n.id, y.id);
  }

  /** Writing the sentinel leaves the tree alone. */
  lemma OffTree(m: Mem, m': Mem, root: Ptr, n: Tree, c: Ctx)
    requires View(m, root, n, c) && Distinct(n) && DistinctCtx(c)
    requires m'.Keys == m.Keys && SameOn(m, m', m.Keys - {NIL})
    ensures View(m', root, n, c)
  {
    NoSentinel(n);
    NoSentinelCtx(c);
    NodesInMemory(m, n, Up(c));
    CtxNodesInMemory(m, root, c, Top(n));
    FrameRep(m, m', n, Up(c));
    FrameCtx(m, m', root, c, Top(n));
  }
}
