/**
 Removal from a red-black tree, on values: unlinking a node and repairing the colours on the way up.
 */
module Removal {
  import opened Trees
  import opened Balance

  function Depth(c: Ctx): nat {
    if c.Root? then 0 else 1 + Depth(c.up)
  }

  /** The focus lacks one black node that its context still expects. */
  ghost predicate Deficit(z: Zip) {
    && Uniform(z.t) && NoRedRed(Paint(z.t, Black))
    && UniformCtx(z.c, BlackHeight(z.t) + 1) && NoRedRedCtx(z.c, Black) && RootBlack(z.c)
  }

  /** First case: a red sibling is rotated above the parent, so that the new sibling is black. */
  function BlackSibling(c: Ctx): (r: Ctx)
    requires c.In?
    ensures r.In?
  {
    var w := c.sib;
    if ColorOf(w) == Black then c
    else In(In(c.up, c.d, w.id, Black, w.key, Kid(w, Other(c.d))), c.d, c.id, Red, c.key, Kid(w, c.d))
  }

  /** The sibling with a red child moved to its far side, where the last rotation needs it. */
  function FarRed(d: Dir, w: Tree, nil: Color): Tree
    requires w.Node? && (Hue(Kid(w, Other(d)), nil) == Black ==> Kid(w, d).Node?)
  {
    if Hue(Kid(w, Other(d)), nil) == Red then w
    else Rotated(Other(d), Mk(d, Paint(Kid(w, d), Black), w.id, Red, w.key, Kid(w, Other(d))))
  }

  /** The parent's subtree after the last rotation, which supplies the missing black node. */
  function Closed(t: Tree, c: Ctx, v: Tree): Tree
    requires c.In? && v.Node?
  {
    var v' := Mk(c.d, Kid(v, c.d), v.id, c.color, v.key, Paint(Kid(v, Other(c.d)), Black));
    Rotated(c.d, Mk(c.d, t, c.id, Black, c.key, v'))
  }

  /** One round of the fix-up loop: it goes on from another focus, or it rotates the sentinel above the
      parent of the focus, which cuts off the parent with everything below it. */
  datatype Round = On(z: Zip, nil: Color) | Raised(rest: Tree)

  /** One round below the root, with a black focus, for any colours in the tree and of the sentinel. */
  function Step(z: Zip, nil: Color): Round
    requires z.c.In?
  {
    var c := BlackSibling(z.c);
    var w := c.sib;
    if w.Leaf? then
      if nil == Black then On(Zip(Mk(c.d, z.t, c.id, c.color, c.key, Leaf), c.up), Red)
      else Raised(Plug(c.up, Leaf))
    else if Hue(w.left, nil) == Black && Hue(w.right, nil) == Black then
      On(Zip(Mk(c.d, z.t, c.id, c.color, c.key, Paint(w, Red)), c.up), nil)
    else if Hue(Kid(w, Other(c.d)), nil) == Black && Kid(w, c.d).Leaf? then
      Raised(Plug(c.up, Leaf))
    else
      On(Zip(Plug(c.up, Closed(z.t, c, FarRed(c.d, w, nil))), Root), if Kid(w, Other(c.d)).Leaf? then Black else nil)
  }

  /** How the fix-up ends: all nodes are still in the tree and the sentinel has the colour `nil`, or a
      part of the tree was cut off. */
  datatype Fate = Kept(t: Tree, nil: Color) | Lost(t: Tree)

  lemma StepDescends(z: Zip, nil: Color)
    requires z.c.In? && Hue(z.t, nil) == Black && Step(z, nil).On?
    ensures var z' := Step(z, nil).z; 2 * Depth(z'.c) + Weight(ColorOf(z'.t)) < 2 * Depth(z.c) + Weight(ColorOf(z.t))
  {
  }

  /** The fix-up loop: rounds below the root while the focus is black, then the focus is blackened. */
  function Fixed(z: Zip, nil: Color): Fate
    decreases 2 * Depth(z.c) + Weight(ColorOf(z.t))
  {
    if z.c.Root? || Hue(z.t, nil) == Red then Kept(Plug(z.c, Paint(z.t, Black)), if z.t.Leaf? then Black else nil)
    else
      match Step(z, nil)
      case On(z', nil') => StepDescends(z, nil); Fixed(z', nil')
      case Raised(rest) => Lost(Paint(rest, Black))
  }

  // ---- What the fix-up does to the entries --------------------------------

  /** A round moves no entry, or loses some. */
  lemma StepEntries(z: Zip, nil: Color)
    requires z.c.In?
    ensures match Step(z, nil)
      case On(z', _) => Inorder(Plug(z'.c, z'.t)) == Inorder(Plug(z.c, z.t))
      case Raised(rest) => |Inorder(rest)| < |Inorder(Plug(z.c, z.t))|
  {
    hide Inorder, Before, After, BlackSibling, Closed, FarRed;
    var c := BlackSibling(z.c);
    BlackSiblingKeepsEntries(z);
    PlugInner(z.t, c);
    ParentEntries(z.t, c, nil);
  }

  lemma PlugInner(t: Tree, c: Ctx)
    requires c.In?
    ensures Plug(c, t) == Plug(c.up, Mk(c.d, t, c.id, c.color, c.key, c.sib))
  {
  }

  /** The parent's subtree keeps its entries in every case that does not cut it off. */
  lemma ParentEntries(t: Tree, c: Ctx, nil: Color)
    requires c.In?
    ensures var p := Plug(c.up, Mk(c.d, t, c.id, c.color, c.key, c.sib));
      && |Inorder(Plug(c.up, Leaf))| < |Inorder(p)|
      && (c.sib.Leaf? ==> Inorder(Plug(c.up, Mk(c.d, t, c.id, c.color, c.key, Leaf))) == Inorder(p))
      && Inorder(Plug(c.up, Mk(c.d, t, c.id, c.color, c.key, Paint(c.sib, Red)))) == Inorder(p)
      && (c.sib.Node? && (Hue(Kid(c.sib, Other(c.d)), nil) == Black ==> Kid(c.sib, c.d).Node?) ==>
            Inorder(Plug(c.up, Closed(t, c, FarRed(c.d, c.sib, nil)))) == Inorder(p))
  {
    var w := c.sib;
    var p := Mk(c.d, t, c.id, c.color, c.key, w);
    InorderOfPlug(c.up, p);
    InorderOfPlug(c.up, Leaf);
    InorderOfPlug(c.up, Mk(c.d, t, c.id, c.color, c.key, Paint(w, Red)));
    if w.Node? && (Hue(Kid(w, Other(c.d)), nil) == Black ==> Kid(w, c.d).Node?) {
      var v := FarRed(c.d, w, nil);
      FarRedEntries(c.d, w, nil);
      ClosedKeepsEntries(t, c, v);
      InorderOfPlug(c.up, Closed(t, c, v));
    }
  }

  lemma FarRedShape(d: Dir, w: Tree, nil: Color)
    requires w.Node? && (Hue(Kid(w, Other(d)), nil) == Black ==> Kid(w, d).Node?)
    ensures var v := FarRed(d, w, nil);
      v.Node? && (Kid(v, Other(d)).Leaf? <==> Kid(w, Other(d)).Leaf? && nil == Red)
  {
  }

  lemma FarRedEntries(d: Dir, w: Tree, nil: Color)
    requires w.Node? && (Hue(Kid(w, Other(d)), nil) == Black ==> Kid(w, d).Node?)
    ensures FarRed(d, w, nil).Node? && Inorder(FarRed(d, w, nil)) == Inorder(w)
  {
    if Hue(Kid(w, Other(d)), nil) == Black {
      RotatedKeepsInorder(Other(d), Mk(d, Paint(Kid(w, d), Black), w.id, Red, w.key, Kid(w, Other(d))));
    }
  }

  /** From any colours, the fix-up keeps every entry in its place exactly when no round raises the
      sentinel. */
  lemma {:induction false} FixedEntries(z: Zip, nil: Color)
    ensures var f := Fixed(z, nil);
      if f.Kept? then Inorder(f.t) == Inorder(Plug(z.c, z.t)) else |Inorder(f.t)| < |Inorder(Plug(z.c, z.t))|
    decreases 2 * Depth(z.c) + Weight(ColorOf(z.t))
  {
    hide Step;
    if z.c.Root? || Hue(z.t, nil) == Red {
      InorderOfPlug(z.c, Paint(z.t, Black));
      InorderOfPlug(z.c, z.t);
    } else {
      StepEntries(z, nil);
      if Step(z, nil).On? {
        StepDescends(z, nil);
        FixedEntries(Step(z, nil).z, Step(z, nil).nil);
      }
    }
  }

  /** The fix-up brings no handle in. */
  lemma {:induction false} FixedNodes(z: Zip, nil: Color)
    ensures Nodes(Fixed(z, nil).t) <= Nodes(Plug(z.c, z.t))
    decreases 2 * Depth(z.c) + Weight(ColorOf(z.t))
  {
    hide Inorder, Plug, BlackSibling, Closed, FarRed;
    if z.c.Root? || Hue(z.t, nil) == Red {
      NodesOfPlug(z.c, Paint(z.t, Black));
      NodesOfPlug(z.c, z.t);
    } else {
      StepEntries(z, nil);
      if Step(z, nil).On? {
        StepDescends(z, nil);
        FixedNodes(Step(z, nil).z, Step(z, nil).nil);
        SameHandles(Plug(Step(z, nil).z.c, Step(z, nil).z.t), Plug(z.c, z.t));
      } else {
        var c := BlackSibling(z.c);
        BlackSiblingKeepsEntries(z);
        SameHandles(Plug(c, z.t), Plug(z.c, z.t));
        NodesOfPlug(c, z.t);
        NodesOfPlug(c.up, Leaf);
      }
    }
  }

  lemma BlackSiblingKeepsEntries(z: Zip)
    requires z.c.In?
    ensures Inorder(Plug(BlackSibling(z.c), z.t)) == Inorder(Plug(z.c, z.t))
  {
    var c := z.c;
    if ColorOf(c.sib) == Red {
      var w := c.sib;
      var p := Mk(c.d, z.t, c.id, Red, c.key, Paint(w, Black));
      RotatedKeepsInorder(c.d, p);
      InorderOfPlug(c.up, Rotated(c.d, p));
      InorderOfPlug(c.up, Mk(c.d, z.t, c.id, c.color, c.key, w));
      var c' := BlackSibling(c);
      assert Plug(c', z.t) == Plug(c'.up, Mk(c.d, z.t, c.id, Red, c.key, Kid(w, c.d)));
    }
  }

  lemma ClosedKeepsEntries(t: Tree, c: Ctx, v: Tree)
    requires c.In? && v.Node?
    ensures Inorder(Closed(t, c, v)) == Inorder(Mk(c.d, t, c.id, c.color, c.key, v))
  {
    var v' := Mk(c.d, Kid(v, c.d), v.id, c.color, v.key, Paint(Kid(v, Other(c.d)), Black));
    assert Inorder(v') == Inorder(v);
    RotatedKeepsInorder(c.d, Mk(c.d, t, c.id, Black, c.key, v'));
  }

  // ---- When entries are lost, told from the tree before ---------------------

  /** The sibling `w` has a black far child and, in place of the near one, the red sentinel. */
  predicate NearMissing(d: Dir, w: Tree, nil: Color)
    requires w.Node?
  {
    nil == Red && Kid(w, d).Leaf? && Hue(Kid(w, Other(d)), nil) == Black
  }

  /** The fix-up raises the sentinel when it climbs up the context `c` with a black focus. */
  predicate Raises(c: Ctx, nil: Color) {
    match c
    case Root => false
    case In(up, d, _, color, _, sib) =>
      if sib.Leaf? then nil == Red || (color == Black && Raises(up, Red))
      else if sib.color == Red then
        if Kid(sib, d).Leaf? then nil == Red else NearMissing(d, Kid(sib, d), nil)
      else if Hue(sib.left, nil) == Black && Hue(sib.right, nil) == Black then color == Black && Raises(up, nil)
      else NearMissing(d, sib, nil)
  }

  /** Whether the fix-up loses entries is decided by what lies above the focus. */
  lemma {:induction false} FixedLoses(z: Zip, nil: Color)
    ensures Fixed(z, nil).Lost? <==> Hue(z.t, nil) == Black && Raises(z.c, nil)
    decreases 2 * Depth(z.c) + Weight(ColorOf(z.t))
  {
    if z.c.In? && Hue(z.t, nil) == Black && Step(z, nil).On? {
      StepDescends(z, nil);
      FixedLoses(Step(z, nil).z, Step(z, nil).nil);
    }
  }

  // ---- When the sentinel stays out of it ----------------------------------

  /** With a black sentinel, some round meets a missing sibling and paints the sentinel red. */
  ghost predicate Meets(z: Zip)
    decreases 2 * Depth(z.c) + Weight(ColorOf(z.t))
  {
    z.c.In? && ColorOf(z.t) == Black &&
      (BlackSibling(z.c).sib.Leaf? ||
       (Step(z, Black).On? && (StepDescends(z, Black); Meets(Step(z, Black).z))))
  }

  /** Unless that happens, nothing is lost and the sentinel stays black. */
  lemma {:induction false} FixedUnmet(z: Zip)
    requires !Meets(z)
    ensures Fixed(z, Black).Kept? && Fixed(z, Black).nil == Black
    decreases 2 * Depth(z.c) + Weight(ColorOf(z.t))
  {
    if z.c.In? && ColorOf(z.t) == Black {
      StepDescends(z, Black);
      FixedUnmet(Step(z, Black).z);
    }
  }

  /** The focus lacks one black node that its context expects, whatever the colours are otherwise. */
  ghost predicate Lacks(z: Zip) {
    Uniform(z.t) && UniformCtx(z.c, BlackHeight(z.t) + 1)
  }

  lemma UniformMk(d: Dir, t: Tree, id: Ptr, color: Color, key: int, w: Tree)
    requires Uniform(t) && Uniform(w) && BlackHeight(t) == BlackHeight(w)
    ensures var up := Mk(d, t, id, color, key, w); Uniform(up) && BlackHeight(up) == BlackHeight(t) + Weight(color)
  {
  }

  /** Then there is a sibling, and the next round, if there is one, finds the same. */
  lemma LacksStep(z: Zip)
    requires Lacks(z) && z.c.In? && ColorOf(z.t) == Black
    ensures BlackSibling(z.c).sib.Node? && Step(z, Black).On?
    ensures var z' := Step(z, Black).z; z'.c.Root? || ColorOf(z'.t) == Red || Lacks(z')
  {
    hide Closed, FarRed, Plug;
    var w := z.c.sib;
    assert w.Node? && BlackHeight(w) == BlackHeight(z.t) + 1;
    if w.color == Black {
      UniformMk(z.c.d, z.t, z.c.id, z.c.color, z.c.key, Paint(w, Red));
    } else {
      assert BlackHeight(w.left) == BlackHeight(w.right) == BlackHeight(w);
    }
  }

  /** It never happens where only one black node is missing. */
  lemma {:induction false} LacksMeetsNothing(z: Zip)
    requires Lacks(z)
    ensures !Meets(z)
    decreases 2 * Depth(z.c) + Weight(ColorOf(z.t))
  {
    hide Step, BlackSibling, Lacks, Depth, Weight;
    if z.c.In? && ColorOf(z.t) == Black {
      LacksStep(z);
      StepDescends(z, Black);
      var z' := Step(z, Black).z;
      if z'.c.In? && ColorOf(z'.t) == Black {
        LacksMeetsNothing(z');
      }
    }
  }

  /** The sibling of a deficient black focus exists, before and after the first case. */
  lemma SiblingExists(z: Zip)
    requires Deficit(z) && z.c.In?
    ensures var c := BlackSibling(z.c);
      c.sib.Node? && c.sib.color == Black && Deficit(Zip(z.t, c))
  {
  }

  lemma FarRedKeeps(d: Dir, w: Tree)
    requires w.Node? && w.color == Black && Uniform(w) && NoRedRed(w)
    requires ColorOf(w.left) == Red || ColorOf(w.right) == Red
    ensures var v := FarRed(d, w, Black);
      && v.Node? && v.color == Black && ColorOf(Kid(v, Other(d))) == Red
      && Uniform(v) && NoRedRed(v) && BlackHeight(v) == BlackHeight(w)
  {
  }

  lemma ClosedKeeps(t: Tree, c: Ctx, v: Tree)
    requires c.In? && v.Node? && v.color == Black && ColorOf(Kid(v, Other(c.d))) == Red
    requires Uniform(t) && NoRedRed(t) && Uniform(v) && NoRedRed(v)
    requires BlackHeight(v) == BlackHeight(t) + 1
    ensures var s := Closed(t, c, v);
      && s.Node? && s.color == c.color && Uniform(s) && NoRedRed(s)
      && BlackHeight(s) == BlackHeight(v) + Weight(c.color)
  {
  }

  lemma RaisedDeficit(t: Tree, c: Ctx)
    requires Deficit(Zip(t, c)) && c.In? && ColorOf(t) == Black
    requires c.sib.Node? && c.sib.color == Black && ColorOf(c.sib.left) == Black && ColorOf(c.sib.right) == Black
    ensures Deficit(Zip(Mk(c.d, t, c.id, c.color, c.key, Paint(c.sib, Red)), c.up))
  {
    assert NoRedRedCtx(c, Black) ==> NoRedRedCtx(c.up, c.color);
  }

  lemma ClosedDeficit(t: Tree, c: Ctx)
    requires Deficit(Zip(t, c)) && c.In? && ColorOf(t) == Black
    requires c.sib.Node? && c.sib.color == Black && (ColorOf(c.sib.left) == Red || ColorOf(c.sib.right) == Red)
    ensures Deficit(Zip(Plug(c.up, Closed(t, c, FarRed(c.d, c.sib, Black))), Root))
  {
    assert NoRedRedCtx(c, Black) ==> NoRedRedCtx(c.up, c.color);
    FarRedKeeps(c.d, c.sib);
    var s := Closed(t, c, FarRed(c.d, c.sib, Black));
    ClosedKeeps(t, c, FarRed(c.d, c.sib, Black));
    UniformPlug(c.up, s);
    NoRedRedPlug(c.up, s);
  }

  /** Each round keeps the deficit or ends at the root with none. */
  lemma StepKeepsDeficit(z: Zip)
    requires Deficit(z) && z.c.In? && ColorOf(z.t) == Black
    ensures Step(z, Black).On? && Step(z, Black).nil == Black && Deficit(Step(z, Black).z)
  {
    SiblingExists(z);
    var c := BlackSibling(z.c);
    if ColorOf(c.sib.left) == Black && ColorOf(c.sib.right) == Black {
      RaisedDeficit(z.t, c);
    } else {
      ClosedDeficit(z.t, c);
    }
  }

  /** From a deficit in a red-black tree the fix-up ends in a red-black tree. */
  lemma {:induction false} FixedIsRedBlack(z: Zip)
    requires Deficit(z)
    ensures Fixed(z, Black).Kept? && Fixed(z, Black).nil == Black && RedBlack(Fixed(z, Black).t)
    decreases 2 * Depth(z.c) + Weight(ColorOf(z.t))
  {
    if z.c.Root? || ColorOf(z.t) == Red {
      var b := Paint(z.t, Black);
      UniformPlug(z.c, b);
      NoRedRedPlug(z.c, b);
      RootBlackPlug(z.c, b);
    } else {
      StepKeepsDeficit(z);
      StepDescends(z, Black);
      FixedIsRedBlack(Step(z, Black).z);
    }
  }

  lemma {:induction false} RootBlackPlug(c: Ctx, t: Tree)
    requires RootBlack(c) && (c.Root? ==> ColorOf(t) == Black)
    ensures ColorOf(Plug(c, t)) == Black
  {
    if c.In? {
      RootBlackPlug(c.up, Mk(c.d, t, c.id, c.color, c.key, c.sib));
    }
  }

  // ---- Unlinking ----------------------------------------------------------

  /** The leftmost node of `t`, as `min` walks to it. */
  function MinFocus(c: Ctx, t: Tree): (z: Zip)
    requires t.Node?
    ensures z.t.Node? && z.t.left.Leaf? && Plug(z.c, z.t) == Plug(c, t)
    decreases t
  {
    if t.left.Leaf? then Zip(t, c)
    else MinFocus(In(c, Left, t.id, t.color, t.key, t.right), t.left)
  }

  /** Which node is found does not depend on what lies above. */
  lemma {:induction false} MinFocusLocal(c: Ctx, c': Ctx, t: Tree)
    requires t.Node?
    ensures MinFocus(c, t).t == MinFocus(c', t).t
    decreases t
  {
    if t.left.Node? {
      MinFocusLocal(In(c, Left, t.id, t.color, t.key, t.right), In(c', Left, t.id, t.color, t.key, t.right), t.left);
    }
  }

  /** Filling the place of the leftmost node inside `t` is independent of what lies above `t`. */
  lemma {:induction false} MinFocusFill(c: Ctx, c': Ctx, t: Tree, s: Tree)
    requires t.Node?
    ensures Plug(MinFocus(c, t).c, s) == Plug(c, MinReplaced(t, s))
    ensures t.left.Node? ==> Up(MinFocus(c, t).c) == Up(MinFocus(c', t).c) && Up(MinFocus(c, t).c) in Nodes(t)
    ensures t.left.Node? ==> MinReplaced(t, s).Node?
    decreases t
  {
    if t.left.Node? {
      var d, d' := In(c, Left, t.id, t.color, t.key, t.right), In(c', Left, t.id, t.color, t.key, t.right);
      MinFocusFill(d, d', t.left, s);
    }
  }

  /** `t` with `s` in the place of its leftmost node. */
  function MinReplaced(t: Tree, s: Tree): Tree
    requires t.Node?
    decreases t
  {
    if t.left.Leaf? then s else t.(left := MinReplaced(t.left, s))
  }

  /** Where the tree is broken after unlinking the node in focus, and the colour that went missing. */
  datatype Cut = Cut(hole: Zip, lost: Color)

  function Unlinked(z: Zip): Cut
    requires z.t.Node?
  {
    var n := z.t;
    if n.left.Leaf? then Cut(Zip(n.right, z.c), n.color)
    else if n.right.Leaf? then Cut(Zip(n.left, z.c), n.color)
    else
      var y := MinFocus(Root, n.right).t;
      Cut(Zip(y.right, MinFocus(In(z.c, Right, y.id, n.color, y.key, n.left), n.right).c), y.color)
  }

  /** `erase` on values, from any tree and any colour of the sentinel. */
  ghost function Erased(t: Tree, id: Ptr, nil: Color): Fate
    requires id in Nodes(t)
  {
    var cut := Unlinked(Focus(Root, t, id));
    if cut.lost == Black then Fixed(cut.hole, nil) else Kept(Plug(cut.hole.c, cut.hole.t), nil)
  }

  /** Erasing `id` loses other entries: a black node goes missing, and the fix-up raises the sentinel on
      its way up from there. */
  ghost predicate Loses(t: Tree, id: Ptr, nil: Color)
    requires id in Nodes(t)
  {
    var cut := Unlinked(Focus(Root, t, id));
    cut.lost == Black && Hue(cut.hole.t, nil) == Black && Raises(cut.hole.c, nil)
  }

  lemma ErasedLoses(t: Tree, id: Ptr, nil: Color)
    requires id in Nodes(t)
    ensures Erased(t, id, nil).Lost? <==> Loses(t, id, nil)
  {
    FixedLoses(Unlinked(Focus(Root, t, id)).hole, nil);
  }

  lemma {:induction false} MinFocusUniform(c: Ctx, t: Tree)
    requires t.Node? && Uniform(t) && UniformCtx(c, BlackHeight(t))
    ensures var z := MinFocus(c, t); Uniform(z.t) && UniformCtx(z.c, BlackHeight(z.t))
    decreases t
  {
    if t.left.Node? {
      MinFocusUniform(In(c, Left, t.id, t.color, t.key, t.right), t.left);
    }
  }

  /** Unlinking a black node from a tree of uniform black height leaves a place that lacks one. */
  lemma UnlinkedLacks(z: Zip)
    requires z.t.Node? && Uniform(Plug(z.c, z.t))
    ensures Unlinked(z).lost == Black ==> Lacks(Unlinked(z).hole)
  {
    var n := z.t;
    UniformPlug(z.c, n);
    if n.left.Node? && n.right.Node? {
      var y := MinFocus(Root, n.right).t;
      var base := In(z.c, Right, y.id, n.color, y.key, n.left);
      MinFocusUniform(base, n.right);
      MinFocusLocal(Root, base, n.right);
    }
  }

  lemma {:induction false} MinFocusKeeps(c: Ctx, t: Tree)
    requires t.Node? && Uniform(t) && NoRedRed(t)
    requires UniformCtx(c, BlackHeight(t)) && NoRedRedCtx(c, ColorOf(t)) && RootBlack(c) && c.In?
    ensures var z := MinFocus(c, t);
      && Uniform(z.t) && NoRedRed(z.t) && UniformCtx(z.c, BlackHeight(z.t)) && NoRedRedCtx(z.c, z.t.color)
      && RootBlack(z.c)
    decreases t
  {
    if t.left.Node? {
      MinFocusKeeps(In(c, Left, t.id, t.color, t.key, t.right), t.left);
    }
  }

  /** Unlinking leaves a deficit exactly when it took a black node away. */
  lemma UnlinkedDeficit(z: Zip)
    requires z.t.Node? && RedBlack(Plug(z.c, z.t))
    ensures var cut := Unlinked(z);
      && (cut.lost == Black ==> Deficit(cut.hole))
      && (cut.lost == Red ==> RedBlack(Plug(cut.hole.c, cut.hole.t)))
  {
    var n, cut := z.t, Unlinked(z);
    UniformPlug(z.c, n);
    NoRedRedPlug(z.c, n);
    ColorOfPlug(z.c, n);
    if n.left.Node? && n.right.Node? {
      var y := MinFocus(Root, n.right).t;
      var base := In(z.c, Right, y.id, n.color, y.key, n.left);
      MinFocusKeeps(base, n.right);
      MinFocusLocal(Root, base, n.right);
    }
    if cut.lost == Red {
      UniformPlug(cut.hole.c, cut.hole.t);
      NoRedRedPlug(cut.hole.c, cut.hole.t);
      RootBlackPlug(cut.hole.c, cut.hole.t);
    }
  }

  /** Unlinking takes out the entry in focus and leaves the rest in place. */
  lemma UnlinkedEntries(z: Zip)
    requires z.t.Node?
    ensures var cut, n := Unlinked(z), z.t;
      Inorder(Plug(cut.hole.c, cut.hole.t)) == (Before(z.c) + Inorder(n.left)) + (Inorder(n.right) + After(z.c))
  {
    var n, cut := z.t, Unlinked(z);
    if n.left.Leaf? || n.right.Leaf? {
      InorderOfPlug(z.c, cut.hole.t);
    } else {
      var y := MinFocus(Root, n.right).t;
      var base := In(z.c, Right, y.id, n.color, y.key, n.left);
      MinFocusLocal(Root, base, n.right);
      UnlinkedMin(base, n.right);
      Regroup(Before(z.c) + Inorder(n.left), Entry(y.id, y.key), Inorder(y.right) + After(cut.hole.c));
    }
  }

  lemma Regroup(a: seq<Entry>, e: Entry, b: seq<Entry>)
    ensures (a + [e]) + b == a + ([e] + b)
  {
  }

  lemma FocusEntries(z: Zip)
    requires z.t.Node?
    ensures Inorder(Plug(z.c, z.t)) == (Before(z.c) + Inorder(z.t.left)) + [Entry(z.t.id, z.t.key)] + (Inorder(z.t.right) + After(z.c))
  {
    InorderOfPlug(z.c, z.t);
  }

  lemma UnlinkedMin(c: Ctx, t: Tree)
    requires t.Node?
    ensures var z := MinFocus(c, t);
      Inorder(t) + After(c) == [Entry(z.t.id, z.t.key)] + (Inorder(z.t.right) + After(z.c))
      && Inorder(Plug(z.c, z.t.right)) == Before(c) + (Inorder(z.t.right) + After(z.c))
  {
    hide Inorder, Plug, Before, After, MinFocus;
    var z := MinFocus(c, t);
    MinFocusEdge(c, t);
    InorderOfPlug(z.c, z.t.right);
  }

  /** The leftmost node comes first; what follows it is its right subtree and its context. */
  lemma {:induction false} MinFocusEdge(c: Ctx, t: Tree)
    requires t.Node?
    ensures var z := MinFocus(c, t);
      && Before(z.c) == Before(c)
      && Inorder(t) + After(c) == [Entry(z.t.id, z.t.key)] + (Inorder(z.t.right) + After(z.c))
    decreases t
  {
    if t.left.Node? {
      var c' := In(c, Left, t.id, t.color, t.key, t.right);
      MinFocusEdge(c', t.left);
      assert Inorder(t) + After(c) == Inorder(t.left) + After(c');
    }
  }

  /** The handles left after unlinking: all but one, still distinct. */
  lemma UnlinkedDistinct(z: Zip)
    requires z.t.Node? && Distinct(Plug(z.c, z.t))
    ensures var cut := Unlinked(z);
      Distinct(Plug(cut.hole.c, cut.hole.t)) && Nodes(Plug(cut.hole.c, cut.hole.t)) == Nodes(Plug(z.c, z.t)) - {z.t.id}
  {
    var cut, e := Unlinked(z), Entry(z.t.id, z.t.key);
    var a, b := Before(z.c) + Inorder(z.t.left), Inorder(z.t.right) + After(z.c);
    UnlinkedEntries(z);
    FocusEntries(z);
    EntriesDecide(Plug(z.c, z.t));
    EntriesDecide(Plug(cut.hole.c, cut.hole.t));
    DistinctConcat(a, e, b);
    forall id ensures Holds(a + [e] + b, id) <==> Holds(a + b, id) || id == e.id {
      HoldsConcat(a + [e], b, id);
      HoldsConcat(a, [e], id);
      HoldsConcat(a, b, id);
      assert [e][0] == e;
    }
    forall i, j | 0 <= i < j < |a + b| ensures (a + b)[i].id != (a + b)[j].id {
      assert i < |a| <= j ==> Holds(a, (a + b)[i].id) && Holds(b, (a + b)[j].id);
    }
  }

  /** The entries other than the one with handle `id`. */
  function Without(s: seq<Entry>, id: Ptr): seq<Entry> {
    if s == [] then [] else (if s[0].id == id then [] else [s[0]]) + Without(s[1..], id)
  }

  lemma {:induction false} WithoutAbsent(s: seq<Entry>, id: Ptr)
    requires forall i :: 0 <= i < |s| ==> s[i].id != id
    ensures Without(s, id) == s
  {
    if s != [] { WithoutAbsent(s[1..], id); }
  }

  lemma {:induction false} WithoutSplit(s: seq<Entry>, e: Entry, u: seq<Entry>)
    requires NoDuplicates(s + [e] + u)
    ensures Without(s + [e] + u, e.id) == s + u
  {
    var all := s + [e] + u;
    assert all[|s|] == e;
    if s == [] {
      assert all[1..] == u;
      WithoutAbsent(u, e.id);
    } else {
      assert all[1..] == s[1..] + [e] + u;
      assert all[0] == s[0] && s[0].id != e.id;
      WithoutSplit(s[1..], e, u);
    }
  }

  /** From any tree, `erase` leaves exactly the other entries, in order and at their handles, unless the
      tree before the call is one in which it raises the sentinel. */
  lemma ErasedEntries(t: Tree, id: Ptr, nil: Color)
    requires Distinct(t) && id in Nodes(t)
    ensures var f := Erased(t, id, nil);
      && (f.Kept? <==> !Loses(t, id, nil)) && (Inorder(f.t) == Without(Inorder(t), id) <==> !Loses(t, id, nil))
      && (f.Kept? ==> Nodes(f.t) == Nodes(t) - {id} && Distinct(f.t))
  {
    var z := Focus(Root, t, id);
    var cut := Unlinked(z);
    ErasedLoses(t, id, nil);
    UnlinkedDistinct(z);
    UnlinkedEntries(z);
    FocusEntries(z);
    EntriesDecide(t);
    WithoutSplit(Before(z.c) + Inorder(z.t.left), Entry(id, z.t.key), Inorder(z.t.right) + After(z.c));
    if cut.lost == Black {
      FixedEntries(cut.hole, nil);
      if Fixed(cut.hole, nil).Kept? {
        SameHandles(Plug(cut.hole.c, cut.hole.t), Erased(t, id, nil).t);
      }
    }
  }

  lemma {:induction false} MinFocusRoot(c: Ctx, t: Tree)
    requires t.Node? && c.In? && RootBlack(c)
    ensures MinFocus(c, t).c.In? && RootBlack(MinFocus(c, t).c)
    decreases t
  {
    if t.left.Node? {
      MinFocusRoot(In(c, Left, t.id, t.color, t.key, t.right), t.left);
    }
  }

  lemma {:induction false} FixedRoot(z: Zip, nil: Color)
    requires RootBlack(z.c)
    ensures var f := Fixed(z, nil); f.Kept? ==> ColorOf(f.t) == Black && (f.t.Leaf? ==> f.nil == Black)
    decreases 2 * Depth(z.c) + Weight(ColorOf(z.t))
  {
    if z.c.Root? || Hue(z.t, nil) == Red {
      RootBlackPlug(z.c, Paint(z.t, Black));
      if z.c.In? || z.t.Node? {
        NotEmpty(z.c, Paint(z.t, Black));
      }
    } else if Step(z, nil).On? {
      StepDescends(z, nil);
      FixedRoot(Step(z, nil).z, Step(z, nil).nil);
    }
  }

  lemma {:induction false} NotEmpty(c: Ctx, t: Tree)
    requires c.In? || t.Node?
    ensures Plug(c, t).Node?
  {
    if c.In? {
      NotEmpty(c.up, Mk(c.d, t, c.id, c.color, c.key, c.sib));
    }
  }

  /** Unless it loses entries, `erase` leaves a black root, and an empty tree with a black sentinel. */
  lemma ErasedRoot(t: Tree, id: Ptr, nil: Color)
    requires ColorOf(t) == Black && id in Nodes(t)
    ensures var f := Erased(t, id, nil); f.Kept? ==> ColorOf(f.t) == Black && (f.t.Leaf? ==> f.nil == Black)
  {
    var z := Focus(Root, t, id);
    var n, cut := z.t, Unlinked(z);
    ColorOfPlug(z.c, n);
    if n.left.Node? && n.right.Node? {
      var y := MinFocus(Root, n.right).t;
      MinFocusRoot(In(z.c, Right, y.id, n.color, y.key, n.left), n.right);
    }
    if cut.lost == Black {
      FixedRoot(cut.hole, nil);
    } else {
      RootBlackPlug(cut.hole.c, cut.hole.t);
      NotEmpty(cut.hole.c, cut.hole.t);
    }
  }

  /** From every tree of uniform black height, so after every run of insertions, `erase` is right, and
      the sentinel stays black. */
  lemma ErasedFromUniform(t: Tree, id: Ptr)
    requires Uniform(t) && id in Nodes(t)
    ensures Erased(t, id, Black).Kept? && Erased(t, id, Black).nil == Black
  {
    var z := Focus(Root, t, id);
    UnlinkedLacks(z);
    if Unlinked(z).lost == Black {
      LacksMeetsNothing(Unlinked(z).hole);
      FixedUnmet(Unlinked(z).hole);
    }
  }

  /** Erasing from a red-black tree gives a red-black tree. */
  lemma ErasedCorrect(t: Tree, id: Ptr)
    requires RedBlack(t) && id in Nodes(t)
    ensures var f := Erased(t, id, Black); f.Kept? && f.nil == Black && RedBlack(f.t)
  {
    var z := Focus(Root, t, id);
    UnlinkedDeficit(z);
    if Unlinked(z).lost == Black {
      FixedIsRedBlack(Unlinked(z).hole);
    }
  }
}
