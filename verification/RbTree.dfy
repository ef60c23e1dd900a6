/**
 The red-black tree of the kernel on node memory, with its in-place rotations and fix-up loops.
 */
module RbTrees {
  import opened Trees
  import opened TreeMemory
  import opened Balance
  import opened Removal

  class RbTree {
    var mem: Mem
    var root: Ptr
    /** The tree that memory holds. */
    ghost var tree: Tree

    /** Memory holds the tree, with consistent links. The sentinel may have any colour. */
    ghost predicate Valid()
      reads this
    {
      Linked(mem, root, tree)
    }

    /** The colour of the sentinel. */
    function Nil(): Color
      reads this
    {
      if NIL in mem then mem[NIL].color else Black
    }

    constructor ()
      ensures Valid() && tree == Leaf && Nil() == Black
    {
      mem, root, tree := map[NIL := Cell(0, Black, NIL, NIL, NIL)], NIL, Leaf;
    }

    /** Rewrites the child of `x` on side `d`. */
    method SetKid(x: Ptr, d: Dir, v: Ptr)
      requires x in mem
      modifies this`mem
      ensures mem == old(mem)[x := old(mem)[x].WithKid(d, v)]
    {
      mem := mem[x := mem[x].WithKid(d, v)];
    }

    method SetParent(x: Ptr, v: Ptr)
      requires x in mem
      modifies this`mem
      ensures mem == old(mem)[x := old(mem)[x].(p := v)]
    {
      mem := mem[x := mem[x].(p := v)];
    }

    /** The rotation macro: the child of `x` opposite to `d` rises, `x` descends on side `d`. */
    method RotateLinks(d: Dir, x: Ptr)
      requires Turnable(mem, d, x)
      modifies this`mem, this`root
      ensures (mem, root) == Turned(old(mem), old(root), d, x)
    {
      var y := mem[x].Kid(Other(d));
      var b := mem[y].Kid(d);
      SetKid(x, Other(d), b);
      if b != NIL {
        SetParent(b, x);
      }
      SetParent(y, mem[x].p);
      var p := mem[x].p;
      if p == NIL {
        root := y;
      } else if x == mem[p].l {
        SetKid(p, Left, y);
      } else {
        SetKid(p, Right, y);
      }
      SetKid(y, d, x);
      SetParent(x, y);
    }

    /** A rotation keeps all links consistent and moves no entry. */
    method Rotate(d: Dir, x: Ptr, ghost t: Tree, ghost c: Ctx)
      requires Valid() && tree == Plug(c, t) && t.Node? && t.id == x && Kid(t, Other(d)).Node?
      modifies this`mem, this`tree, this`root
      ensures Valid() && tree == Plug(c, Rotated(d, t)) && mem.Keys == old(mem.Keys) && mem[NIL] == old(mem[NIL])
    {
      ViewPlug(mem, root, t, c);
      RotatableView(mem, root, d, t, c);
      TurnedRotates(mem, root, d, x);
      RotateLinks(d, x);
      RotatedView(old(mem), mem, old(root), root, d, t, c);
      tree := Plug(c, Rotated(d, t));
      ViewPlug(mem, root, Rotated(d, t), c);
      RotatedKeepsInorder(d, t);
      InorderOfPlug(c, t);
      InorderOfPlug(c, Rotated(d, t));
      SameHandles(Plug(c, t), tree);
    }
  
    method SetColor(x: Ptr, color: Color, ghost t: Tree, ghost c: Ctx)
      requires Valid() && tree == Plug(c, t) && x == Top(t)
      modifies this`mem, this`tree
      ensures Valid() && tree == Plug(c, Paint(t, color)) && (t.Node? ==> x != NIL && mem[NIL] == old(mem)[NIL])
      ensures x in old(mem) && mem == old(mem)[x := old(mem)[x].(color := color)]
    {
      ViewPlug(mem, root, t, c);
      PaintedView(mem, root, t, c, color);
      mem := mem[x := mem[x].(color := color)];
      tree := Plug(c, Paint(t, color));
      ViewPlug(mem, root, Paint(t, color), c);
    }

    // ---- Insertion --------------------------------------------------------

    /** Red uncle, which may be the sentinel: the parent and the uncle turn black and the grandparent red. */
    method Recolor(p: Ptr, y: Ptr, g: Ptr, ghost z: Tree, ghost c: Ctx)
      requires Valid() && tree == Plug(c, z) && z.Node? && c.In? && c.up.In?
      requires p == c.id && y == Top(c.up.sib) && g == c.up.id
      modifies this`mem, this`tree
      ensures Valid() && tree == Plug(c.up.up, Recoloured(c, z)) && mem.Keys == old(mem.Keys)
      ensures Nil() == if c.up.sib.Leaf? then Black else old(Nil())
      ensures z.id in mem && mem[z.id].p == p && p in mem && mem[p].color == Black
    {
      ghost var gc := c.up;
      ghost var pt := Mk(c.d, z, c.id, c.color, c.key, c.sib);
      ghost var pb := Paint(pt, Black);
      SetColor(p, Black, pt, gc);
      SetColor(y, Black, gc.sib, In(gc.up, Other(gc.d), gc.id, gc.color, gc.key, pb));
      SetColor(g, Red, Mk(gc.d, pb, gc.id, gc.color, gc.key, Paint(gc.sib, Black)), gc.up);
      ViewPlug(mem, root, Recoloured(c, z), gc.up);
      assert Rep(mem, pb, gc.id) && Rep(mem, z, p);
    }

    /** Black uncle, first half: a node on the inside is rotated to the outside. */
    method TurnOut(z: Ptr, p: Ptr, d: Dir, ghost zt: Tree, ghost c: Ctx) returns (low: Ptr, ghost up: Tree)
      requires Valid() && tree == Plug(c, zt) && zt.Node? && c.In? && c.up.In?
      requires z == zt.id && p == c.id && d == c.up.d
      modifies this`mem, this`tree, this`root
      ensures Valid() && mem.Keys == old(mem.Keys) && mem[NIL] == old(mem)[NIL] && tree == Plug(c.up, up)
      ensures var pt := Mk(c.d, zt, c.id, c.color, c.key, c.sib); up == if c.d == d then pt else Rotated(d, pt)
      ensures Kid(up, d).Node? && Kid(up, d).id == low && low in mem
      ensures mem[low].p == up.id && up.id in mem && mem[up.id].p == c.up.id
    {
      ViewPlug(mem, root, zt, c);
      NodesOfPlug(c, zt);
      low, up := z, Mk(c.d, zt, c.id, c.color, c.key, c.sib);
      if z == mem[p].Kid(Other(d)) {
        low := p;
        Rotate(d, p, up, c.up);
        up := Rotated(d, up);
      }
      ViewPlug(mem, root, up, c.up);
      NodesOfPlug(c.up, up);
      assert Rep(mem, Kid(up, d), up.id);
    }

    /** Black uncle: the parent takes the place of the grandparent. */
    method Straighten(z: Ptr, p: Ptr, d: Dir, ghost zt: Tree, ghost c: Ctx) returns (low: Ptr)
      requires Valid() && tree == Plug(c, zt) && zt.Node? && c.In? && c.up.In?
      requires z == zt.id && p == c.id && d == c.up.d
      modifies this`mem, this`tree, this`root
      ensures Valid() && tree == Plug(c.up.up, Straightened(c, zt)) && mem.Keys == old(mem.Keys) && mem[NIL] == old(mem)[NIL]
      ensures low in mem && mem[low].p in mem && mem[mem[low].p].color == Black
    {
      ghost var gc, up := c.up, Leaf;
      low, up := TurnOut(z, p, d, zt, c);
      SetColor(mem[low].p, Black, up, gc);
      ghost var ub := Paint(up, Black);
      SetColor(mem[mem[low].p].p, Red, Mk(gc.d, ub, gc.id, gc.color, gc.key, gc.sib), gc.up);
      Rotate(Other(d), mem[mem[low].p].p, Mk(gc.d, ub, gc.id, Red, gc.key, gc.sib), gc.up);
      ghost var s := Straightened(c, zt);
      ViewPlug(mem, root, s, gc.up);
      assert Kid(s, d) == Kid(up, d) && s.id == up.id && s.color == Black && Rep(mem, Kid(s, d), s.id);
    }

    /** The fix-up loop of insertion: it runs at most once. */
    method InsertFixup(z0: Ptr, ghost zt: Tree, ghost c: Ctx) returns (ghost rounds: nat)
      requires Valid() && tree == Plug(c, zt) && zt.Node? && zt.id == z0 && RootBlack(c) && (c.Root? ==> Nil() == Black)
      modifies this`mem, this`tree, this`root
      ensures Valid() && tree == Paint(InsertFixed(c, zt, old(Nil())), Black) && rounds <= 1
      ensures Nil() == FixedNil(c, old(Nil()))
    {
      ViewPlug(mem, root, zt, c);
      ghost var nil := Nil();
      FixedNotEmpty(c, zt, nil);
      var z := z0;
      rounds := 0;
      while mem[mem[z].p].color == Red
        invariant Valid() && z in mem && mem[z].p in mem && rounds <= 1
        invariant rounds == 0 ==> tree == Plug(c, zt) && Nil() == nil && z == z0 && mem[z].p == Up(c) && mem[mem[z].p].color == CtxColor(c)
        invariant rounds == 1 ==> tree == InsertFixed(c, zt, nil) && Nil() == FixedNil(c, nil) && mem[mem[z].p].color == Black
        invariant rounds == 1 ==> CtxColor(c) == Red
        decreases 1 - rounds
      {
        z := FixInserted(z, zt, c);
        rounds := rounds + 1;
      }
      SetColor(root, Black, tree, Root);
    }

    /** The one round of that loop. */
    method FixInserted(z: Ptr, ghost zt: Tree, ghost c: Ctx) returns (low: Ptr)
      requires Valid() && tree == Plug(c, zt) && zt.Node? && zt.id == z && RootBlack(c) && CtxColor(c) == Red
      requires z in mem && mem[z].p == c.id
      modifies this`mem, this`tree, this`root
      ensures Valid() && tree == InsertFixed(c, zt, old(Nil())) && Nil() == FixedNil(c, old(Nil()))
      ensures low in mem && mem[low].p in mem && mem[mem[low].p].color == Black
    {
      var p := mem[z].p;
      ViewPlug(mem, root, zt, c);
      NodesOfPlug(c, zt);
      assert RepCtx(mem, root, c.up, c.id);
      assert c.up.sib.Node? ==> Rep(mem, c.up.sib, c.up.id);
      var g := mem[p].p;
      var d := if p == mem[g].l then Left else Right;
      var y := mem[g].Kid(Other(d));
      low := z;
      if mem[y].color == Red {
        Recolor(p, y, g, zt, c);
      } else {
        low := Straighten(z, p, d, zt, c);
      }
    }

    /** The walk from the root towards `k`: the node that holds it, or the empty place for it. */
    method Search(k: int) returns (x: Ptr, y: Ptr, ghost f: Zip)
      requires Valid()
      ensures f == Find(Root, tree, k) && Plug(f.c, f.t) == tree
      ensures x == Top(f.t) && y == Up(f.c) && (x == NIL <==> f.t.Leaf?)
      ensures f.c.In? ==> (f.c.d == Left <==> k < f.c.key)
    {
      f, x, y := Zip(tree, Root), root, NIL;
      ghost var t := tree;
      while x != NIL && k != mem[x].key
        invariant Plug(f.c, f.t) == tree && x == Top(f.t) && y == Up(f.c) && (x == NIL <==> f.t.Leaf?)
        invariant Find(f.c, f.t, k) == Find(Root, tree, k) && (x != NIL ==> x in mem)
        invariant f.t.Node? ==> mem[x] == Cell(f.t.key, f.t.color, Top(f.t.left), Top(f.t.right), y)
        invariant f.c.In? ==> (f.c.d == Left <==> k < f.c.key)
        decreases f.t
      {
        y := x;
        t := f.t;
        if k < mem[x].key {
          f, x := Zip(t.left, In(f.c, Left, t.id, t.color, t.key, t.right)), mem[x].l;
        } else {
          f, x := Zip(t.right, In(f.c, Right, t.id, t.color, t.key, t.left)), mem[x].r;
        }
        ViewPlug(mem, root, f.t, f.c);
        NodesOfPlug(f.c, f.t);
      }
    }

    /** `insert`: set insertion that returns the handle of the key, old or new; `z` is the address
        that the kernel heap has handed out for a node. For a present key that node stays allocated,
        outside of the tree. */
    method Insert(k: int, z: Ptr) returns (h: Ptr)
      requires Valid() && ColorOf(tree) == Black && (tree.Leaf? ==> Nil() == Black) && z !in mem
      modifies this
      ensures Valid() && ColorOf(tree) == Black && tree.Node?
      ensures tree == Inserted(old(tree), k, z, old(Nil())) && Nil() == InsertedNil(old(tree), k, old(Nil()))
      ensures var f := Find(Root, old(tree), k); h == if f.t.Node? then f.t.id else z
      ensures Find(Root, old(tree), k).t.Node? ==> mem == old(mem)[z := Cell(k, Red, NIL, NIL, NIL)] && tree == old(tree)
    {
      NodesInMemory(mem, tree, NIL);
      mem := mem[z := Cell(k, Red, NIL, NIL, NIL)];
      FrameRep(old(mem), mem, tree, NIL);
      var x, y;
      ghost var f;
      x, y, f := Search(k);
      if x != NIL {
        assert tree.Leaf? ==> f.t.Leaf?;
        return x;
      }
      h := z;
      Attach(z, y, k, f.c);
      ColorOfPlug(f.c, Leaf);
      FixedNotEmpty(f.c, Node(Leaf, z, Red, k, Leaf), Nil());
      ghost var rounds := InsertFixup(z, Node(Leaf, z, Red, k, Leaf), f.c);
    }

    /** Links the fresh node `z` below `y`, on the side that the key decides. */
    method Attach(z: Ptr, y: Ptr, k: int, ghost c: Ctx)
      requires Valid() && tree == Plug(c, Leaf) && y == Up(c) && z != NIL && z !in Nodes(tree)
      requires z in mem && mem[z].(p := NIL) == Cell(k, Red, NIL, NIL, NIL)
      requires c.In? ==> (c.d == Left <==> k < c.key)
      modifies this`mem, this`tree, this`root
      ensures Valid() && tree == Plug(c, Node(Leaf, z, Red, k, Leaf)) && mem[NIL] == old(mem)[NIL]
    {
      ViewPlug(mem, root, Leaf, c);
      NodesOfPlug(c, Leaf);
      CtxNodesInMemory(mem, root, c, NIL);
      ghost var n := Node(Leaf, z, Red, k, Leaf);
      SetParent(z, y);
      if y == NIL {
        root := z;
      } else if k < mem[y].key {
        SetKid(y, Left, z);
      } else {
        SetKid(y, Right, z);
      }
      tree := Plug(c, n);
      AttachedView(old(mem), mem, old(root), root, c, n);
      ViewPlug(mem, root, n, c);
      NodesOfPlug(c, n);
    }
  
    // ---- Removal ----------------------------------------------------------

    /** Red sibling: rotate it above the parent, so that the next sibling is black. */
    method MakeSiblingBlack(p: Ptr, w: Ptr, d: Dir, ghost z: Zip) returns (v: Ptr)
      requires Valid() && tree == Plug(z.c, z.t) && z.c.In? && p == z.c.id && d == z.c.d
      requires z.c.sib.Node? && z.c.sib.color == Red && w == z.c.sib.id
      modifies this`mem, this`tree, this`root
      ensures Valid() && tree == Plug(BlackSibling(z.c), z.t) && v == Top(BlackSibling(z.c).sib)
      ensures mem.Keys == old(mem.Keys) && mem[NIL] == old(mem[NIL])
    {
      ghost var c, s := z.c, z.c.sib;
      SetColor(w, Black, s, In(c.up, Other(d), c.id, c.color, c.key, z.t));
      SetColor(p, Red, Mk(d, z.t, c.id, c.color, c.key, Paint(s, Black)), c.up);
      Rotate(d, p, Mk(d, z.t, c.id, Red, c.key, Paint(s, Black)), c.up);
      ghost var c' := BlackSibling(c);
      assert tree == Plug(c', z.t);
      ViewPlug(mem, root, z.t, c');
      v := mem[p].Kid(Other(d));
    }

    /** Only the near child of the sibling is red: rotate the sibling, so that the far one is. */
    method MakeFarRed(p: Ptr, w: Ptr, d: Dir, ghost t: Tree, ghost c: Ctx) returns (v: Ptr)
      requires Valid() && tree == Plug(c, t) && c.In? && p == c.id && d == c.d && c.sib.Node? && w == c.sib.id
      requires Hue(Kid(c.sib, Other(d)), Nil()) == Black && Kid(c.sib, d).Node?
      modifies this`mem, this`tree, this`root
      ensures Valid() && tree == Plug(c.(sib := FarRed(d, c.sib, old(Nil()))), t) && v == Top(FarRed(d, c.sib, old(Nil())))
      ensures mem.Keys == old(mem.Keys) && mem[NIL] == old(mem[NIL])
    {
      ghost var s, nil := c.sib, Nil();
      ghost var sc := In(c.up, Other(d), c.id, c.color, c.key, t);
      ViewPlug(mem, root, s, sc);
      assert Rep(mem, Kid(s, d), s.id);
      SetColor(mem[w].Kid(d), Black, Kid(s, d), In(sc, d, s.id, s.color, s.key, Kid(s, Other(d))));
      ghost var s' := Mk(d, Paint(Kid(s, d), Black), s.id, s.color, s.key, Kid(s, Other(d)));
      SetColor(w, Red, s', sc);
      Rotate(Other(d), w, Paint(s', Red), sc);
      ViewPlug(mem, root, t, c.(sib := FarRed(d, s, nil)));
      v := mem[p].Kid(Other(d));
    }

    /** The far child of the sibling is red: the last rotation supplies the missing black node. */
    method Close(p: Ptr, w: Ptr, d: Dir, ghost t: Tree, ghost c: Ctx)
      requires Valid() && tree == Plug(c, t) && c.In? && p == c.id && d == c.d && c.sib.Node? && w == c.sib.id
      modifies this`mem, this`tree, this`root
      ensures Valid() && tree == Plug(c.up, Closed(t, c, c.sib)) && mem.Keys == old(mem.Keys)
      ensures Nil() == if Kid(c.sib, Other(d)).Leaf? then Black else old(Nil())
    {
      ghost var s := c.sib;
      ViewPlug(mem, root, t, c);
      SetColor(w, mem[p].color, s, In(c.up, Other(d), c.id, c.color, c.key, t));
      ghost var s' := Paint(s, c.color);
      SetColor(p, Black, Mk(d, t, c.id, c.color, c.key, s'), c.up);
      ghost var c' := In(c.up, Other(d), c.id, Black, c.key, t);
      ViewPlug(mem, root, s', c');
      ghost var far := Kid(s, Other(d));
      assert Rep(mem, far, s.id);
      SetColor(mem[w].Kid(Other(d)), Black, far, In(c', Other(d), s.id, s'.color, s.key, Kid(s, d)));
      Rotate(d, p, Mk(d, t, c.id, Black, c.key, Mk(d, Kid(s, d), s.id, c.color, s.key, Paint(far, Black))), c.up);
    }

    // What a round does when it takes the sentinel for a node.

    /** The last recolouring and rotation of a round whose sibling is the sentinel: `p` is cut off. */
    method CutOff(p: Ptr, d: Dir)
      requires CutReady(mem, p, d)
      modifies this`mem, this`root
      ensures CutFrom(old(mem), old(root), mem, root, p, d, {old(mem)[NIL].Kid(Other(d))})
    {
      var w := mem[p].Kid(Other(d));
      mem := mem[w := mem[w].(color := mem[p].color)];
      mem := mem[p := mem[p].(color := Black)];
      mem := mem[mem[w].Kid(Other(d)) := mem[mem[w].Kid(Other(d))].(color := Black)];
      RotateLinks(d, p);
    }

    /** The near child of the sibling `w` is the red sentinel. */
    method RaiseBelow(p: Ptr, w: Ptr, d: Dir)
      requires RaiseReady(mem, p, w, d)
      modifies this`mem, this`root
      ensures CutFrom(old(mem), old(root), mem, root, p, d, {w})
    {
      mem := mem[mem[w].Kid(d) := mem[mem[w].Kid(d)].(color := Black)];
      mem := mem[w := mem[w].(color := Red)];
      RotateLinks(Other(d), w);
      CutOff(p, d);
    }

    /** The sibling is the red sentinel. It rises above `p`, `p` above it, and then it rises again. */
    method RaiseTwice(p: Ptr, d: Dir)
      requires CutReady(mem, p, d) && mem[NIL].Kid(Other(d)) == NIL && OneChild(mem, mem[p].p, p)
      modifies this`mem, this`root
      ensures CutFrom(old(mem), old(root), mem, root, p, d, {NIL})
    {
      hide Turned, Turnable;
      RaiseFirst(p, d);
      SwapBack(p, d, old(mem)[p].p);
      CutOff(p, d);
    }

    method RaiseFirst(p: Ptr, d: Dir)
      requires CutReady(mem, p, d) && mem[NIL].Kid(Other(d)) == NIL && OneChild(mem, mem[p].p, p)
      modifies this`mem, this`root
      ensures CutFrom(old(mem), old(root), mem, root, p, d, {})
      ensures mem[NIL].Kid(Other(d)) == NIL && mem[NIL].p == old(mem)[p].p && mem[p].Kid(Other(d)) == NIL
      ensures mem[p].color == Red && mem[NIL].color == Black
    {
      mem := mem[NIL := mem[NIL].(color := Black)];
      mem := mem[p := mem[p].(color := Red)];
      RotateLinks(d, p);
    }

    /** `p` hangs below the sentinel; now it takes the place that the sentinel took. */
    method SwapBack(p: Ptr, d: Dir, ghost g: Ptr)
      requires p in mem && p != NIL && NIL in mem && g in mem && g != p && mem[NIL].p == g
      requires mem[NIL].Kid(d) == p && mem[NIL].Kid(Other(d)) == NIL && mem[p].Kid(Other(d)) == NIL
      requires mem[p].color == Red && mem[NIL].color == Black
      modifies this`mem, this`root
      ensures CutReady(mem, p, d) && mem[NIL].Kid(Other(d)) == NIL && mem[p].p == g && mem.Keys == old(mem).Keys
      ensures SameOn(old(mem), mem, mem.Keys - {p, NIL, g})
      ensures if g == NIL then root == p else root == old(root) && mem[g] == old(mem)[g].WithKid(if NIL == old(mem)[g].l then Left else Right, p)
    {
      var w := mem[p].Kid(Other(d));
      assert mem[mem[w].Kid(d)].color == Red && mem[mem[w].Kid(Other(d))].color == Black;
      mem := mem[mem[w].Kid(d) := mem[mem[w].Kid(d)].(color := Black)];
      mem := mem[w := mem[w].(color := Red)];
      RotateLinks(Other(d), w);
    }

    /** The tree that is left when `p`, right below `up`, was cut off. */
    method AfterCut(ghost m: Mem, ghost r: Ptr, ghost p: Ptr, ghost d: Dir, ghost up: Ctx, ghost also: set<Ptr>) returns (x: Ptr)
      requires p in m && p != NIL && m[p].p in m && CutFrom(m, r, mem, root, p, d, also)
      requires m[p].p == Up(up) && RepCtx(m, r, up, p) && DistinctCtx(up) && CtxNodes(up) !! also + {p, NIL}
      requires up.In? ==> Top(up.sib) != p
      modifies this`tree
      ensures tree == Plug(up, Leaf) && Rooted(mem, root, tree) && x == root && x in mem && !Sentinel(mem)
    {
      CtxNodesInMemory(m, r, up, p);
      Rehang(m, mem, r, root, up, p, NIL);
      tree := Plug(up, Leaf);
      ViewPlug(mem, root, Leaf, up);
      NodesOfPlug(up, Leaf);
      NodesInMemory(mem, tree, NIL);
      x := root;
    }

    /** The sibling is missing: the sentinel in its place is painted red, or raised if it is red already. */
    method MissingSibling(x: Ptr, p: Ptr, d: Dir, ghost t: Tree, ghost c: Ctx, again: bool) returns (x': Ptr)
      requires Valid() && tree == Plug(c, t) && c.In? && c.sib.Leaf? && p == c.id && x == Top(t) && (t.Node? ==> d == c.d)
      requires Hue(t, Nil()) == Black
      modifies this`mem, this`tree, this`root
      ensures old(Nil()) == Black ==> Valid() && tree == old(tree) && Nil() == Red && x' == p && p in mem && mem[p].p == Up(c.up)
      ensures old(Nil()) == Red ==> tree == Plug(c.up, Leaf) && Rooted(mem, root, tree) && x' == root && x' in mem && !Sentinel(mem)
    {
      ViewPlug(mem, root, t, c);
      NodesOfPlug(c, t);
      ghost var m, r := mem, root;
      if mem[NIL].color == Black {
        SetColor(NIL, Red, Leaf, In(c.up, Other(c.d), c.id, c.color, c.key, t));
        ViewPlug(mem, root, t, c);
        x' := p;
      } else {
        NoSentinelCtx(c.up);
        CtxNodesInMemory(mem, root, c.up, p);
        if again {
          CutOff(p, d);
        } else {
          RaiseTwice(p, d);
        }
        x' := AfterCut(m, r, p, d, c.up, {NIL});
      }
    }

    /** First half of a round: find the sibling and make it black. */
    method FindSibling(x: Ptr, ghost z: Zip) returns (p: Ptr, d: Dir, w: Ptr)
      requires Valid() && tree == Plug(z.c, z.t) && z.c.In? && z.c.sib.Node?
      requires x == Top(z.t) && x in mem && mem[x].p == z.c.id
      modifies this`mem, this`tree, this`root
      ensures Valid() && p == z.c.id && d == z.c.d && w == Top(BlackSibling(z.c).sib)
      ensures tree == Plug(BlackSibling(z.c), z.t) && mem[NIL] == old(mem)[NIL]
    {
      ViewPlug(mem, root, z.t, z.c);
      NodesOfPlug(z.c, z.t);
      p := mem[x].p;
      d := if x == mem[p].l then Left else Right;
      w := mem[p].Kid(Other(d));
      assert Rep(mem, z.c.sib, p);
      if mem[w].color == Red {
        w := MakeSiblingBlack(p, w, d, z);
      }
    }

    /** Second half of a round, with a sibling. */
    method UseSibling(x: Ptr, p: Ptr, d: Dir, w0: Ptr, ghost t: Tree, ghost c: Ctx) returns (x': Ptr)
      requires Valid() && tree == Plug(c, t) && c.In? && c.sib.Node? && p == c.id && d == c.d && w0 == c.sib.id
      modifies this`mem, this`tree, this`root
      ensures var w, nil := c.sib, old(Nil());
        if Hue(w.left, nil) == Black && Hue(w.right, nil) == Black then
          Valid() && tree == Plug(c.up, Mk(d, t, c.id, c.color, c.key, Paint(w, Red))) && Nil() == nil && x' == p && p in mem && mem[p].p == Up(c.up)
        else if Hue(Kid(w, Other(d)), nil) == Black && Kid(w, d).Leaf? then
          tree == Plug(c.up, Leaf) && Rooted(mem, root, tree) && x' == root && x' in mem && !Sentinel(mem)
        else
          Valid() && tree == Plug(c.up, Closed(t, c, FarRed(d, w, nil))) && x' == root && Nil() == if Kid(w, Other(d)).Leaf? then Black else nil
    {
      hide Closed;
      var w := w0;
      SiblingCells(p, d, w, t, c);
      assert mem[w].l == mem[w].Kid(Left) && mem[w].r == mem[w].Kid(Right);
      if mem[mem[w].l].color == Black && mem[mem[w].r].color == Black {
        SetColor(w, Red, c.sib, In(c.up, Other(d), c.id, c.color, c.key, t));
        x' := p;
        ViewPlug(mem, root, t, c.(sib := Paint(c.sib, Red)));
      } else if mem[w].Kid(d) == NIL && mem[mem[w].Kid(Other(d))].color == Black {
        x' := RaiseNear(p, d, w, t, c);
      } else {
        x' := LastRotation(p, d, w, t, c);
      }
    }

    /** The end of a round that takes the red sentinel for the near child of the sibling. */
    method RaiseNear(p: Ptr, d: Dir, w: Ptr, ghost t: Tree, ghost c: Ctx) returns (x': Ptr)
      requires Valid() && tree == Plug(c, t) && c.In? && c.sib.Node? && p == c.id && d == c.d && w == c.sib.id && Kid(c.sib, d).Leaf?
      modifies this`mem, this`tree, this`root
      ensures tree == Plug(c.up, Leaf) && Rooted(mem, root, tree) && x' == root && x' in mem && !Sentinel(mem)
    {
      ghost var m, r := mem, root;
      ViewPlug(mem, root, t, c);
      NodesOfPlug(c, t);
      NoSentinelCtx(c.up);
      CtxNodesInMemory(mem, root, c.up, p);
      SiblingCells(p, d, w, t, c);
      assert Rep(mem, c.sib, p);
      RaiseBelow(p, w, d);
      x' := AfterCut(m, r, p, d, c.up, {w});
    }

    /** The end of a round that closes the gap. */
    method LastRotation(p: Ptr, d: Dir, w0: Ptr, ghost t: Tree, ghost c: Ctx) returns (x': Ptr)
      requires Valid() && tree == Plug(c, t) && c.In? && c.sib.Node? && p == c.id && d == c.d && w0 == c.sib.id
      requires Hue(Kid(c.sib, Other(d)), Nil()) == Black ==> Kid(c.sib, d).Node?
      modifies this`mem, this`tree, this`root
      ensures Valid() && tree == Plug(c.up, Closed(t, c, FarRed(d, c.sib, old(Nil())))) && x' == root
      ensures Nil() == if Kid(c.sib, Other(d)).Leaf? then Black else old(Nil())
    {
      hide Rep, RepCtx, Distinct;
      var w := w0;
      ghost var nil := Nil();
      SiblingCells(p, d, w, t, c);
      if mem[mem[w].Kid(Other(d))].color == Black {
        w := MakeFarRed(p, w, d, t, c);
      }
      FarRedShape(d, c.sib, nil);
      Close(p, w, d, t, c.(sib := FarRed(d, c.sib, nil)));
      x' := root;
    }

    /** The sibling and its children in memory. */
    lemma SiblingCells(p: Ptr, d: Dir, w: Ptr, t: Tree, c: Ctx)
      requires Valid() && tree == Plug(c, t) && c.In? && c.sib.Node? && p == c.id && d == c.d && w == c.sib.id
      ensures w in mem && w != NIL && p in mem && mem[p].Kid(Other(d)) == w && mem[p].Kid(d) == Top(t) && mem[p].p == Up(c.up)
      ensures forall e :: mem[w].Kid(e) == Top(Kid(c.sib, e)) && mem[w].Kid(e) in mem && mem[mem[w].Kid(e)].color == Hue(Kid(c.sib, e), Nil())
      ensures forall e :: mem[w].Kid(e) == NIL <==> Kid(c.sib, e).Leaf?
    {
      ViewPlug(mem, root, t, c);
      NodesOfPlug(c, t);
      assert Rep(mem, c.sib, p) && Rep(mem, c.sib.left, w) && Rep(mem, c.sib.right, w);
      assert Distinct(c.sib) && Distinct(c.sib.left) && Distinct(c.sib.right);
    }

    /** One round of the fix-up loop of removal. */
    method FixOnce(x: Ptr, ghost z: Zip) returns (x': Ptr, ghost r: Round)
      requires Valid() && tree == Plug(z.c, z.t) && z.c.In? && Hue(z.t, Nil()) == Black
      requires x == Top(z.t) && x in mem && mem[x].p == z.c.id
      modifies this`mem, this`tree, this`root
      ensures r == Step(z, old(Nil()))
      ensures r.On? ==> Valid() && tree == Plug(r.z.c, r.z.t) && Nil() == r.nil
      ensures r.On? ==> x' == Top(r.z.t) && x' in mem && (r.z.c.In? ==> mem[x'].p == r.z.c.id)
      ensures r.Raised? ==> tree == r.rest && Rooted(mem, root, tree) && x' == root && x' in mem && !Sentinel(mem)
    {
      r := Step(z, Nil());
      ghost var c := BlackSibling(z.c);
      ViewPlug(mem, root, z.t, z.c);
      NodesOfPlug(z.c, z.t);
      var p := mem[x].p;
      var d := if x == mem[p].l then Left else Right;
      var w := mem[p].Kid(Other(d));
      if w == NIL {
        x' := MissingSibling(x, p, d, z.t, z.c, false);
      } else {
        p, d, w := FindSibling(x, z);
        NodesOfPlug(c, z.t);
        if w == NIL {
          x' := MissingSibling(x, p, d, z.t, c, true);
        } else {
          x' := UseSibling(x, p, d, w, z.t, c);
        }
      }
      if r.On? {
        ViewPlug(mem, root, r.z.t, r.z.c);
      }
    }

    /** The fix-up loop of removal, from any place in any tree, with any colour of the sentinel. */
    method RemoveFixup(x0: Ptr, ghost z0: Zip) returns (ghost f: Fate)
      requires Valid() && tree == Plug(z0.c, z0.t)
      requires x0 == Top(z0.t) && x0 in mem && (z0.c.In? ==> mem[x0].p == z0.c.id)
      modifies this`mem, this`tree, this`root
      ensures f == Fixed(z0, old(Nil())) && tree == f.t && Rooted(mem, root, tree)
      ensures f.Kept? ==> Valid() && Nil() == f.nil
      ensures f.Lost? ==> !Sentinel(mem)
    {
      hide Step, Rep, Distinct;
      f := Fixed(z0, Nil());
      var x := x0;
      ghost var z, lost := z0, false;
      RootFocus(x, z);
      while x != root && mem[x].color == Black
        invariant !lost ==> Valid() && tree == Plug(z.c, z.t) && Fixed(z, Nil()) == f
        invariant !lost ==> x == Top(z.t) && x in mem && mem[x].color == Hue(z.t, Nil()) && (x == root <==> z.c.Root?)
        invariant !lost && z.c.In? ==> mem[x].p == z.c.id
        invariant lost ==> x == root && x in mem && Rooted(mem, root, tree) && !Sentinel(mem) && f == Lost(Paint(tree, Black))
        decreases if lost then 0 else 1 + 2 * Depth(z.c) + Weight(ColorOf(z.t))
      {
        ghost var r;
        ghost var nil := Nil();
        x, r := FixOnce(x, z);
        if r.On? {
          StepDescends(z, nil);
          z := r.z;
          RootFocus(x, z);
        } else {
          lost := true;
        }
      }
      Blacken(x, if lost then tree else z.t, if lost then Root else z.c);
    }

    /** The last statement of the fix-up, also for a root or a sentinel. */
    method Blacken(x: Ptr, ghost t: Tree, ghost c: Ctx)
      requires Rooted(mem, root, tree) && tree == Plug(c, t) && x == Top(t) && x in mem
      modifies this`mem, this`tree
      ensures Rooted(mem, root, tree) && tree == Plug(c, Paint(t, Black)) && (Sentinel(mem) <==> old(Sentinel(mem)))
      ensures Nil() == if t.Leaf? then Black else old(Nil())
    {
      ViewPlug(mem, root, t, c);
      PaintedView(mem, root, t, c, Black);
      mem := mem[x := mem[x].(color := Black)];
      tree := Plug(c, Paint(t, Black));
      ViewPlug(mem, root, Paint(t, Black), c);
    }

    /** The focus is the root exactly when nothing lies above it. */
    lemma RootFocus(x: Ptr, z: Zip)
      requires Valid() && tree == Plug(z.c, z.t) && x == Top(z.t)
      ensures (x == root <==> z.c.Root?) && x in mem && mem[x].color == Hue(z.t, Nil()) && Rooted(mem, root, tree)
    {
      ViewPlug(mem, root, z.t, z.c);
      NodesOfPlug(z.c, z.t);
      TopOfPlug(z.c, z.t);
    }

    /** `_transplant`: `v` takes over the place of `u`, even if `v` is the sentinel. */
    method Transplant(u: Ptr, v: Ptr)
      requires u in mem && v in mem && mem[u].p in mem && u != mem[u].p && u != v
      modifies this`mem, this`root
      ensures mem == Transplanted(old(mem), u, v)
      ensures root == if old(mem)[u].p == NIL then v else old(root)
    {
      var p := mem[u].p;
      if p == NIL {
        root := v;
      } else if u == mem[p].l {
        SetKid(p, Left, v);
      } else {
        SetKid(p, Right, v);
      }
      SetParent(v, mem[u].p);
    }

    /** `min`: the leftmost node of the subtree at `x`. */
    method Min(x: Ptr, ghost t: Tree, ghost c: Ctx) returns (y: Ptr)
      requires Valid() && tree == Plug(c, t) && t.Node? && x == t.id
      ensures y == MinFocus(c, t).t.id
    {
      ghost var z := Zip(t, c);
      var x' := x;
      y := NIL;
      while x' != NIL
        invariant tree == Plug(z.c, z.t) && x' == Top(z.t)
        invariant if z.t.Node? then MinFocus(z.c, z.t) == MinFocus(c, t) else y == MinFocus(c, t).t.id
        decreases z.t
      {
        ViewPlug(mem, root, z.t, z.c);
        NodesOfPlug(z.c, z.t);
        y := x';
        x' := mem[x'].l;
        z := Zip(z.t.left, In(z.c, Left, z.t.id, z.t.color, z.t.key, z.t.right));
      }
      NodesOfPlug(z.c, z.t);
    }
  
    /** A child takes the place of its parent, which has no other child. */
    method Splice(z: Ptr, e: Dir, ghost n: Tree, ghost c: Ctx)
      requires Valid() && tree == Plug(c, n) && n.Node? && z == n.id
      modifies this`mem, this`tree, this`root
      ensures Valid() && tree == Plug(c, Kid(n, e)) && z in old(mem) && Nil() == old(Nil())
      ensures var x := old(mem)[z].Kid(e); x == Top(Kid(n, e)) && x in mem && mem[x].p == Up(c)
      ensures mem.Keys == old(mem.Keys) && mem[z] == old(mem)[z]
    {
      ghost var s := Kid(n, e);
      ViewPlug(mem, root, n, c);
      NodesOfPlug(c, n);
      NodesOfPlug(c, s);
      SpliceReady(mem, root, n, c, e);
      NoSentinel(s);
      SplicedView(mem, root, if c.Root? then Top(s) else root, n, c, e);
      Transplant(z, mem[z].Kid(e));
      tree := Plug(c, s);
      ViewPlug(mem, root, s, c);
    }
  
    /** The right child of `z` is itself the leftmost node: it already holds the rest. */
    method DetachChild(z: Ptr, y: Ptr, ghost n: Tree, ghost c: Ctx)
      requires Valid() && tree == Plug(c, n) && n.Node? && n.right.Node? && n.right.left.Leaf? && z == n.id && y == n.right.id
      modifies this`mem
      ensures Detached(mem, root, n, c, y, n.right.key, n.right.right) && mem.Keys == old(mem.Keys) && Nil() == old(Nil())
      ensures n.right.right.Leaf? ==> mem[NIL].p == y
    {
      ViewPlug(mem, root, n, c);
      NodesOfPlug(c, n);
      ghost var r := n.right.right;
      assert Rep(mem, n.right, z) && Rep(mem, r, y);
      SetParent(mem[y].r, y);
      if r.Node? {
        assert mem == old(mem);
      } else {
        OffTree(old(mem), mem, root, n, c);
      }
    }

    /** The leftmost node lies deeper: splice it out, then let it hold the rest. */
    method DetachDeep(z: Ptr, y: Ptr, ghost n: Tree, ghost c: Ctx, ghost m: Zip)
      requires Valid() && tree == Plug(c, n) && n.Node? && n.right.Node? && n.right.left.Node? && z == n.id
      requires m == MinFocus(In(c, Right, n.id, n.color, n.key, n.left), n.right) && y == m.t.id
      modifies this`mem, this`tree, this`root
      ensures Detached(mem, root, n, c, y, m.t.key, MinReplaced(n.right, m.t.right)) && mem.Keys == old(mem.Keys) && Nil() == old(Nil())
      ensures m.t.right.Leaf? ==> mem[NIL].p == Up(m.c)
    {
      ghost var base, r := In(c, Right, n.id, n.color, n.key, n.left), MinReplaced(n.right, m.t.right);
      MinFocusFill(base, Root, n.right, m.t.right);
      ViewPlug(mem, root, m.t, m.c);
      NodesOfPlug(m.c, m.t);
      NodesOfPlug(m.c, m.t.right);
      Splice(y, Right, m.t, m.c);
      ghost var n' := n.(right := r);
      assert tree == Plug(c, n');
      ViewPlug(mem, root, n', c);
      NodesOfPlug(c, n');
      HandOver(z, y, n', c);
    }

    /** `y`, which is outside the tree, becomes the parent of the right subtree of `z`. */
    method HandOver(z: Ptr, y: Ptr, ghost n: Tree, ghost c: Ctx)
      requires Valid() && tree == Plug(c, n) && n.Node? && n.right.Node? && z == n.id
      requires y in mem && y != NIL && y !in Nodes(tree)
      modifies this`mem
      ensures Detached(mem, root, n, c, y, old(mem)[y].key, n.right) && mem.Keys == old(mem.Keys)
      ensures mem[NIL] == old(mem)[NIL]
    {
      ViewPlug(mem, root, n, c);
      NodesOfPlug(c, n);
      NodesInMemory(mem, n, Up(c));
      CtxNodesInMemory(mem, root, c, z);
      SetKid(y, Right, mem[z].r);
      SetParent(mem[y].r, y);
      FrameRep(old(mem), mem, n.left, z);
      Reparent(old(mem), mem, n.right, z, y);
      FrameCtx(old(mem), mem, root, c, z);
    }

    /** `y` takes over the place, the left subtree and the colour of `z`. */
    method Adopt(z: Ptr, y: Ptr, ghost n: Tree, ghost c: Ctx, ghost y': Tree)
      requires n.Node? && n.left.Node? && z == n.id && y'.Node? && y == y'.id && y'.left == n.left && y'.color == n.color
      requires Detached(mem, root, n, c, y, y'.key, y'.right) && Distinct(Plug(c, y')) && z !in Nodes(Plug(c, y'))
      modifies this`mem, this`tree, this`root
      ensures Valid() && tree == Plug(c, y') && mem[NIL] == old(mem)[NIL]
    {
      NodesOfPlug(c, y');
      assert n.left.id in Nodes(y') && Up(c) in CtxNodes(c) + {NIL};
      NodesInMemory(mem, n.left, z);
      NodesInMemory(mem, y'.right, y);
      CtxNodesInMemory(mem, root, c, z);
      Transplant(z, y);
      SetKid(y, Left, mem[z].l);
      SetParent(mem[y].l, y);
      mem := mem[y := mem[y].(color := mem[z].color)];
      tree := Plug(c, y');
      AdoptedView(old(mem), mem, old(root), root, n, c, y');
      ViewPlug(mem, root, y', c);
    }
  
    /** Takes the node `z`, which has two children, out of the tree; `x` is what moved up. */
    method UnlinkInner(z: Ptr, ghost zip: Zip) returns (x: Ptr, lost: Color)
      requires Valid() && tree == Plug(zip.c, zip.t) && zip.t.Node? && zip.t.left.Node? && zip.t.right.Node? && z == zip.t.id
      modifies this`mem, this`tree, this`root
      ensures var cut := Unlinked(zip);
        && Valid() && tree == Plug(cut.hole.c, cut.hole.t) && lost == cut.lost
        && x == Top(cut.hole.t) && x in mem && (cut.hole.c.In? ==> mem[x].p == cut.hole.c.id) && Nil() == old(Nil())
    {
      ghost var n, c := zip.t, zip.c;
      ghost var old_base := In(c, Right, n.id, n.color, n.key, n.left);
      ghost var m := MinFocus(old_base, n.right);
      ghost var base := In(c, Right, m.t.id, n.color, m.t.key, n.left);
      ghost var hole := Unlinked(zip).hole;
      ghost var y' := Node(n.left, m.t.id, n.color, m.t.key, MinReplaced(n.right, m.t.right));
      MinFocusLocal(Root, old_base, n.right);
      MinFocusFill(base, old_base, n.right, m.t.right);
      assert Plug(hole.c, hole.t) == Plug(c, y');
      UnlinkedDistinct(zip);
      ViewPlug(mem, root, n, c);
      ViewPlug(mem, root, m.t, m.c);
      NodesOfPlug(c, n);
      var y := Min(mem[z].r, n.right, old_base);
      lost := mem[y].color;
      x := mem[y].r;
      if mem[y].p == z {
        DetachChild(z, y, n, c);
      } else {
        DetachDeep(z, y, n, c, m);
      }
      Adopt(z, y, n, c, y');
      ViewPlug(mem, root, hole.t, hole.c);
    }

    /** Takes the node `z` out of the tree; `x` is what moved up, `lost` the colour that went missing. */
    method Unlink(z: Ptr, ghost zip: Zip) returns (x: Ptr, lost: Color)
      requires Valid() && tree == Plug(zip.c, zip.t) && zip.t.Node? && z == zip.t.id
      modifies this`mem, this`tree, this`root
      ensures var cut := Unlinked(zip);
        && Valid() && tree == Plug(cut.hole.c, cut.hole.t) && lost == cut.lost
        && x == Top(cut.hole.t) && x in mem && (cut.hole.c.In? ==> mem[x].p == cut.hole.c.id) && Nil() == old(Nil())
    {
      ViewPlug(mem, root, zip.t, zip.c);
      NodesOfPlug(zip.c, zip.t);
      if mem[z].l == NIL {
        x, lost := mem[z].r, mem[z].color;
        Splice(z, Right, zip.t, zip.c);
      } else if mem[z].r == NIL {
        x, lost := mem[z].l, mem[z].color;
        Splice(z, Left, zip.t, zip.c);
      } else {
        x, lost := UnlinkInner(z, zip);
      }
    }

    /** `erase`, from any tree. It leaves exactly the other entries, in order and at their handles, unless
        the tree before the call is one in which the fix-up raises the sentinel. */
    method Erase(z: Ptr) returns (ghost f: Fate)
      requires Valid() && (z != NIL ==> z in Nodes(tree))
      modifies this
      ensures z == NIL ==> Valid() && tree == old(tree) && Nil() == old(Nil()) && f == Kept(tree, Nil())
      ensures z != NIL ==> f == Erased(old(tree), z, old(Nil())) && tree == f.t && Rooted(mem, root, tree) && z !in mem
      ensures z != NIL ==> (Inorder(tree) == Without(Inorder(old(tree)), z) <==> !Loses(old(tree), z, old(Nil())))
      ensures Valid() <==> z == NIL || !Loses(old(tree), z, old(Nil()))
      ensures f.Kept? <==> Valid()
      ensures f.Kept? ==> Nil() == f.nil
      ensures old(ColorOf(tree)) == Black && z != NIL && Valid() ==> ColorOf(tree) == Black && (tree.Leaf? ==> Nil() == Black)
      ensures old(Nil()) == Black && Uniform(old(tree)) ==> f.Kept? && Nil() == Black
      ensures old(Nil()) == Black && RedBlack(old(tree)) ==> RedBlack(tree)
    {
      hide Uniform, RedBlack, Erased, Inorder, Without, Loses;
      f := Kept(tree, Nil());
      if z == NIL {
        return;
      }
      ghost var nil := Nil();
      EraseOutcome(z);
      f := EraseNode(z);
      assert f == Erased(old(tree), z, nil);
      Discard(z);
    }

    lemma EraseOutcome(z: Ptr)
      requires Valid() && z in Nodes(tree)
      ensures var f := Erased(tree, z, Nil());
        && (f.Kept? <==> !Loses(tree, z, Nil())) && (Inorder(f.t) == Without(Inorder(tree), z) <==> f.Kept?)
        && (ColorOf(tree) == Black && f.Kept? ==> ColorOf(f.t) == Black && (f.t.Leaf? ==> f.nil == Black))
        && (Nil() == Black && Uniform(tree) ==> f.Kept? && f.nil == Black)
        && (Nil() == Black && RedBlack(tree) ==> f.Kept? && f.nil == Black && RedBlack(f.t))
    {
      hide Erased, Inorder, Without, Loses;
      ErasedEntries(tree, z, Nil());
      if ColorOf(tree) == Black {
        ErasedRoot(tree, z, Nil());
      }
      if Nil() == Black && Uniform(tree) {
        ErasedFromUniform(tree, z);
        if RedBlack(tree) {
          ErasedCorrect(tree, z);
        }
      }
    }

    /** Unlinks the node and repairs the tree; the node itself is still in memory. */
    method EraseNode(z: Ptr) returns (ghost f: Fate)
      requires Valid() && z in Nodes(tree)
      modifies this
      ensures f == Erased(old(tree), z, old(Nil())) && tree == f.t && Rooted(mem, root, tree) && z !in Nodes(tree) && z != NIL
      ensures f.Kept? ==> Valid() && Nil() == f.nil
      ensures f.Lost? ==> !Sentinel(mem)
    {
      hide Fixed, Unlinked;
      ghost var zip, nil := Focus(Root, tree, z), Nil();
      ghost var hole := Unlinked(zip).hole;
      UnlinkedDistinct(zip);
      NoSentinel(tree);
      var x, lost := Unlink(z, zip);
      f := Kept(tree, Nil());
      if lost == Black {
        FixedNodes(hole, Nil());
        f := RemoveFixup(x, hole);
      }
    }

    /** Frees a node that is no longer part of the tree. */
    method Discard(z: Ptr)
      requires Rooted(mem, root, tree) && z !in Nodes(tree) && z != NIL
      modifies this`mem
      ensures Rooted(mem, root, tree) && z !in mem && mem[NIL] == old(mem)[NIL]
    {
      NodesInMemory(mem, tree, NIL);
      mem := mem - {z};
      FrameRep(old(mem), mem, tree, NIL);
    }
  
    // ---- Traversal --------------------------------------------------------

    /** `succ`: the handle that follows `x` in key order, or the sentinel. */
    method Succ(x: Ptr, ghost z: Zip) returns (h: Ptr)
      requires Valid() && tree == Plug(z.c, z.t) && z.t.Node? && x == z.t.id
      ensures h == FirstId(Inorder(z.t.right) + After(z.c))
    {
      ViewPlug(mem, root, z.t, z.c);
      NodesOfPlug(z.c, z.t);
      if mem[x].r != NIL {
        ghost var c := In(z.c, Right, z.t.id, z.t.color, z.t.key, z.t.left);
        h := Min(mem[x].r, z.t.right, c);
        MinFocusEdge(c, z.t.right);
        return;
      }
      var x' := x;
      h := mem[x].p;
      ghost var t, c := z.t, z.c;
      while h != NIL && x' == mem[h].r
        invariant tree == Plug(c, t) && t.Node? && x' == t.id && h == Up(c) && After(c) == After(z.c)
        invariant h != NIL ==> h in mem
        invariant c.In? <==> h != NIL
        decreases c
      {
        ViewPlug(mem, root, t, c);
        NodesOfPlug(c, t);
        assert c.d == Right;
        x' := h;
        h := mem[h].p;
        t, c := Mk(c.d, t, c.id, c.color, c.key, c.sib), c.up;
        ViewPlug(mem, root, t, c);
        NodesOfPlug(c, t);
      }
      ViewPlug(mem, root, t, c);
    }

    /** `begin`: the handle of the least key, or the sentinel. */
    method Begin() returns (h: Ptr)
      requires Valid()
      ensures h == FirstId(Inorder(tree))
    {
      if root == NIL {
        return NIL;
      }
      h := Min(root, tree, Root);
      MinFocusEdge(Root, tree);
      assert Inorder(tree) + After(Root) == Inorder(tree);
    }

    /** The least entry in focus: what follows it is everything else. */
    lemma LeastEntry(z: Zip)
      requires Valid() && Inorder(tree) != [] && Plug(z.c, z.t) == tree && z.t.Node? && z.t.id == Inorder(tree)[0].id
      ensures Inorder(tree)[0].key == z.t.key && Inorder(tree)[1..] == Inorder(z.t.right) + After(z.c)
      ensures Without(Inorder(tree), z.t.id) == Inorder(tree)[1..]
    {
      var s, u, e := Before(z.c) + Inorder(z.t.left), Inorder(z.t.right) + After(z.c), Entry(z.t.id, z.t.key);
      FocusEntries(z);
      EntriesDecide(tree);
      assert (s + [e] + u)[|s|] == e;
      assert s == [];
      WithoutSplit(s, e, u);
    }

    /** The handle at the front of the order is in the tree and carries the least key. */
    lemma FrontHandle()
      requires Valid()
      ensures FirstId(Inorder(tree)) == NIL <==> Inorder(tree) == []
      ensures Inorder(tree) != [] ==>
        var e := Inorder(tree)[0]; e.id in Nodes(tree) && e.id in mem && mem[e.id].key == e.key && e.id != NIL
    {
      EntriesDecide(tree);
      if Inorder(tree) != [] {
        var e := Inorder(tree)[0];
        assert Holds(Inorder(tree), e.id);
        var z := Focus(Root, tree, e.id);
        LeastEntry(z);
        ViewPlug(mem, root, z.t, z.c);
      }
    }

    /** Iterates from the least key and erases every entry up to `limit` on the way: the successor is
        taken before each erase, and erasing leaves the nodes still to be visited in place. It stops
        (`!ok`) at the first erase that loses entries, and tells exactly when there is none. */
    method EraseThrough(limit: int) returns (gone: seq<Entry>, ok: bool)
      requires Valid() && Sorted(Inorder(tree))
      modifies this
      ensures ok <==> Smooth(old(tree), old(Nil()), limit)
      ensures ok ==> Valid() && old(Inorder(tree)) == gone + Inorder(tree)
      ensures ok ==> (forall i :: 0 <= i < |gone| ==> gone[i].key <= limit) && AllAbove(Inorder(tree), limit)
    {
      hide Inorder, Rep, Distinct, Nodes, Sorted, AllAbove, Smooth;
      gone, ok := [], true;
      var it := Begin();
      FrontHandle();
      ghost var smooth := Smooth(tree, Nil(), limit);
      while ok && it != NIL && mem[it].key <= limit
        invariant ok ==> Valid() && Sorted(Inorder(tree)) && Smooth(tree, Nil(), limit) == smooth && AtFront(it)
        invariant ok ==> old(Inorder(tree)) == gone + Inorder(tree)
        invariant forall i :: 0 <= i < |gone| ==> gone[i].key <= limit
        invariant !ok ==> !smooth
        decreases ok, |Inorder(tree)|
      {
        gone := gone + [Entry(it, mem[it].key)];
        it, ok := EraseFront(it, limit);
      }
      if ok {
        SmoothEnd(tree, Nil(), limit);
        SortedAbove(Inorder(tree), limit);
      }
    }

    /** `it` is the handle of the least entry, or the sentinel if there is none. */
    ghost predicate AtFront(it: Ptr)
      reads this
    {
      && it == FirstId(Inorder(tree)) && (it == NIL <==> Inorder(tree) == [])
      && (it != NIL ==> it in Nodes(tree) && it in mem && Inorder(tree)[0] == Entry(it, mem[it].key))
    }

    /** One round of that iteration. */
    method EraseFront(here: Ptr, ghost limit: int) returns (it: Ptr, ok: bool)
      requires Valid() && Sorted(Inorder(tree)) && AtFront(here) && here != NIL && mem[here].key <= limit
      modifies this
      ensures ok ==> Valid() && Sorted(Inorder(tree)) && AtFront(it) && Inorder(tree) == old(Inorder(tree))[1..]
      ensures ok ==> (Smooth(old(tree), old(Nil()), limit) <==> Smooth(tree, Nil(), limit))
      ensures !ok ==> !Smooth(old(tree), old(Nil()), limit)
    {
      hide Inorder, Rep, Distinct, Nodes, Without, Sorted, Erased, Smooth, Uniform, RedBlack, Loses;
      ghost var z := Focus(Root, tree, here);
      LeastEntry(z);
      SortedTail(Inorder(tree));
      SmoothStep(tree, Nil(), limit);
      it := Succ(here, z);
      ghost var f := Erase(here);
      ok := Intact();
      if ok {
        FrontHandle();
      }
    }

    /** Whether the sentinel has no child, as it has after every erase that keeps all entries. */
    method Intact() returns (ok: bool)
      requires Rooted(mem, root, tree)
      ensures ok <==> Valid()
    {
      ok := mem[NIL].l == NIL && mem[NIL].r == NIL;
    }
  }

  /** Every entry up to `limit` can be erased from the front, one after another, without losing others. */
  ghost predicate Smooth(t: Tree, nil: Color, limit: int)
    requires Distinct(t)
    decreases |Inorder(t)|
  {
    Inorder(t) == [] || limit < Inorder(t)[0].key || (
      FrontErased(t, nil);
      var f := Erased(t, Inorder(t)[0].id, nil);
      !Loses(t, Inorder(t)[0].id, nil) && Smooth(f.t, f.nil, limit))
  }

  lemma FrontErased(t: Tree, nil: Color)
    requires Distinct(t) && Inorder(t) != []
    ensures Inorder(t)[0].id in Nodes(t) && (Erased(t, Inorder(t)[0].id, nil).Kept? <==> !Loses(t, Inorder(t)[0].id, nil))
    ensures var f := Erased(t, Inorder(t)[0].id, nil); f.Kept? ==> Distinct(f.t) && Inorder(f.t) == Inorder(t)[1..]
  {
    hide Erased, Inorder, Without, Distinct, Nodes, Loses;
    EntriesDecide(t);
    var e := Inorder(t)[0];
    assert Holds(Inorder(t), e.id);
    ErasedEntries(t, e.id, nil);
    assert Inorder(t) == [] + [e] + Inorder(t)[1..];
    WithoutSplit([], e, Inorder(t)[1..]);
    assert [] + Inorder(t)[1..] == Inorder(t)[1..];
  }

  lemma SmoothStep(t: Tree, nil: Color, limit: int)
    requires Distinct(t) && Inorder(t) != [] && Inorder(t)[0].key <= limit
    ensures Inorder(t)[0].id in Nodes(t)
    ensures var f := Erased(t, Inorder(t)[0].id, nil);
      (f.Kept? ==> Distinct(f.t)) && (Smooth(t, nil, limit) <==> f.Kept? && Smooth(f.t, f.nil, limit))
  {
    FrontErased(t, nil);
  }

  lemma SmoothEnd(t: Tree, nil: Color, limit: int)
    requires Distinct(t) && (Inorder(t) == [] || limit < Inorder(t)[0].key)
    ensures Smooth(t, nil, limit)
  {
  }

  /** From a red-black tree with a black sentinel no such erase loses entries. */
  lemma {:induction false} SmoothRedBlack(t: Tree, limit: int)
    requires Distinct(t) && RedBlack(t)
    ensures Smooth(t, Black, limit)
    decreases |Inorder(t)|
  {
    hide Erased, Uniform, NoRedRed, Loses;
    if Inorder(t) != [] && Inorder(t)[0].key <= limit {
      FrontErased(t, Black);
      ErasedCorrect(t, Inorder(t)[0].id);
      SmoothRedBlack(Erased(t, Inorder(t)[0].id, Black).t, limit);
    }
  }
}
