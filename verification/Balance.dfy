/**
 Colour invariants of the red-black tree, and insertion on values.
 */
module Balance {
  import opened Trees

  function Weight(color: Color): nat {
    if color == Black then 1 else 0
  }

  /** Black nodes on the leftmost path; the black height once the tree is uniform. */
  function BlackHeight(t: Tree): nat {
    if t.Leaf? then 0 else BlackHeight(t.left) + Weight(t.color)
  }

  /** Every path from the root to a leaf crosses the same number of black nodes. */
  ghost predicate Uniform(t: Tree) {
    t.Node? ==> Uniform(t.left) && Uniform(t.right) && BlackHeight(t.left) == BlackHeight(t.right)
  }

  /** No red node has a red child. */
  ghost predicate NoRedRed(t: Tree) {
    t.Node? ==>
      && (t.color == Red ==> ColorOf(t.left) == Black && ColorOf(t.right) == Black)
      && NoRedRed(t.left) && NoRedRed(t.right)
  }

  ghost predicate RedBlack(t: Tree) {
    ColorOf(t) == Black && Uniform(t) && NoRedRed(t)
  }

  /** A red node under a red parent has two children; `above` is the colour of the parent of `t`. */
  ghost predicate Fertile(t: Tree, above: Color) {
    t.Node? ==>
      && (t.color == Red && above == Red ==> t.left.Node? && t.right.Node?)
      && Fertile(t.left, t.color) && Fertile(t.right, t.color)
  }

  /** What every run of insertions keeps: weaker than red-black, but still of uniform black height. */
  ghost predicate InsertInv(t: Tree) {
    ColorOf(t) == Black && Uniform(t) && Fertile(t, Black)
  }

  // The same predicates for a context, so that they can be checked around a hole.

  function CtxColor(c: Ctx): Color {
    if c.Root? then Black else c.color
  }

  /** `c` becomes uniform when its hole is filled with a uniform tree of black height `h`. */
  ghost predicate UniformCtx(c: Ctx, h: nat) {
    c.In? ==>
      && Uniform(c.sib) && BlackHeight(c.sib) == h
      && UniformCtx(c.up, h + Weight(c.color))
  }

  ghost predicate NoRedRedCtx(c: Ctx, hole: Color) {
    c.In? ==>
      && (c.color == Red ==> hole == Black && ColorOf(c.sib) == Black)
      && NoRedRed(c.sib) && NoRedRedCtx(c.up, c.color)
  }

  ghost predicate FertileCtx(c: Ctx, filled: bool) {
    c.In? ==>
      && (c.color == Red && CtxColor(c.up) == Red ==> filled && c.sib.Node?)
      && Fertile(c.sib, c.color) && FertileCtx(c.up, true)
  }

  lemma {:induction false} UniformPlug(c: Ctx, t: Tree)
    ensures Uniform(Plug(c, t)) <==> Uniform(t) && UniformCtx(c, BlackHeight(t))
  {
    if c.In? {
      UniformPlug(c.up, Mk(c.d, t, c.id, c.color, c.key, c.sib));
    }
  }

  lemma {:induction false} NoRedRedPlug(c: Ctx, t: Tree)
    ensures NoRedRed(Plug(c, t)) <==> NoRedRed(t) && NoRedRedCtx(c, ColorOf(t))
  {
    if c.In? {
      NoRedRedPlug(c.up, Mk(c.d, t, c.id, c.color, c.key, c.sib));
    }
  }

  lemma {:induction false} FertilePlug(c: Ctx, t: Tree)
    ensures Fertile(Plug(c, t), Black) <==> Fertile(t, CtxColor(c)) && FertileCtx(c, t.Node?)
  {
    if c.In? {
      FertilePlug(c.up, Mk(c.d, t, c.id, c.color, c.key, c.sib));
    }
  }

  /** The colour of the root is that of the outermost frame, or of the focus itself. */
  lemma {:induction false} ColorOfPlug(c: Ctx, t: Tree)
    ensures c.In? ==> ColorOf(Plug(c, t)) == ColorOf(Plug(c, Leaf))
    ensures ColorOf(Plug(c, t)) == Black ==> RootBlack(c)
  {
    if c.In? && c.up.In? {
      ColorOfPlug(c.up, Mk(c.d, t, c.id, c.color, c.key, c.sib));
      ColorOfPlug(c.up, Mk(c.d, Leaf, c.id, c.color, c.key, c.sib));
    }
  }

  /** The outermost node of the context, if there is one, is black. */
  ghost predicate RootBlack(c: Ctx) {
    c.In? ==> if c.up.Root? then c.color == Black else RootBlack(c.up)
  }

  // ---- Insertion ----------------------------------------------------------

  /** The place where the search for `k` ends: the node holding `k`, or an empty hole. */
  function Find(c: Ctx, t: Tree, k: int): (z: Zip)
    ensures z.t.Node? ==> z.t.key == k
    decreases t
  {
    if t.Leaf? || t.key == k then Zip(t, c)
    else if k < t.key then Find(In(c, Left, t.id, t.color, t.key, t.right), t.left, k)
    else Find(In(c, Right, t.id, t.color, t.key, t.left), t.right, k)
  }

  /** The grandparent's subtree after the rotations of the fix-up (black uncle). */
  function Straightened(c: Ctx, z: Tree): Tree
    requires c.In? && c.up.In? && z.Node?
  {
    var g, p := c.up, Mk(c.d, z, c.id, c.color, c.key, c.sib);
    var p' := if c.d == g.d then p else Rotated(g.d, p);
    Rotated(Other(g.d), Mk(g.d, Paint(p', Black), g.id, Red, g.key, g.sib))
  }

  /** The grandparent's subtree after the recolouring of the fix-up (red uncle). */
  function Recoloured(c: Ctx, z: Tree): Tree
    requires c.In? && c.up.In?
  {
    Mk(c.up.d, Mk(c.d, z, c.id, Black, c.key, c.sib), c.up.id, Red, c.up.key, Paint(c.up.sib, Black))
  }

  /** The fix-up after linking the red node `z` into `c`, with a sentinel of the colour `nil`: one round at
      most, and no climb. */
  function InsertFixed(c: Ctx, z: Tree, nil: Color): Tree
    requires z.Node? && RootBlack(c)
  {
    if CtxColor(c) == Black then Plug(c, z)
    else
      Plug(c.up.up, if Hue(c.up.sib, nil) == Red then Recoloured(c, z) else Straightened(c, z))
  }

  /** `insert` on values: unchanged when the key is present, else linked and fixed. */
  function Inserted(t: Tree, k: int, id: Ptr, nil: Color): Tree
    requires ColorOf(t) == Black
  {
    var z := Find(Root, t, k);
    if z.t.Node? then t
    else
      FindPlugs(Root, t, k); ColorOfPlug(z.c, z.t);
      Paint(InsertFixed(z.c, Node(Leaf, id, Red, k, Leaf), nil), Black)
  }

  /** The colour of the sentinel after the fix-up: a red sentinel in the uncle's place turns black. */
  function FixedNil(c: Ctx, nil: Color): Color
    requires RootBlack(c)
  {
    if CtxColor(c) == Red && c.up.sib.Leaf? then Black else nil
  }

  /** The colour of the sentinel after `insert`. */
  function InsertedNil(t: Tree, k: int, nil: Color): Color
    requires ColorOf(t) == Black
  {
    var z := Find(Root, t, k);
    if z.t.Node? then nil
    else
      FindPlugs(Root, t, k); ColorOfPlug(z.c, z.t);
      FixedNil(z.c, nil)
  }

  lemma {:induction false} FindPlugs(c: Ctx, t: Tree, k: int)
    ensures var z := Find(c, t, k); Plug(z.c, z.t) == Plug(c, t)
    decreases t
  {
    if t.Node? && t.key != k {
      if k < t.key {
        FindPlugs(In(c, Left, t.id, t.color, t.key, t.right), t.left, k);
      } else {
        FindPlugs(In(c, Right, t.id, t.color, t.key, t.left), t.right, k);
      }
    }
  }

  ghost predicate AllBelow(s: seq<Entry>, k: int) { forall i :: 0 <= i < |s| ==> s[i].key < k }
  ghost predicate AllAbove(s: seq<Entry>, k: int) { forall i :: 0 <= i < |s| ==> k < s[i].key }

  /** In a search tree the hole found for `k` separates the smaller keys from the larger ones. */
  lemma {:induction false} FindSeparates(c: Ctx, t: Tree, k: int)
    requires Sorted(Inorder(t)) && AllBelow(Before(c), k) && AllAbove(After(c), k)
    ensures var z := Find(c, t, k); z.t.Leaf? ==> AllBelow(Before(z.c), k) && AllAbove(After(z.c), k)
    decreases t
  {
    if t.Node? && t.key != k {
      var s, e := Inorder(t), Entry(t.id, t.key);
      var n := |Inorder(t.left)|;
      assert Inorder(t.left) == s[..n] && s[n] == e && Inorder(t.right) == s[n + 1..];
      if k < t.key {
        FindSeparates(In(c, Left, t.id, t.color, t.key, t.right), t.left, k);
      } else {
        FindSeparates(In(c, Right, t.id, t.color, t.key, t.left), t.right, k);
      }
    }
  }

  /** The fix-up neither moves nor drops an entry. */
  lemma FixedKeepsEntries(c: Ctx, z: Tree, nil: Color)
    requires z.Node? && RootBlack(c)
    ensures Inorder(Paint(InsertFixed(c, z, nil), Black)) == Inorder(Plug(c, z))
  {
    if CtxColor(c) == Red {
      var g, p := c.up, Mk(c.d, z, c.id, c.color, c.key, c.sib);
      InorderOfPlug(g.up, Mk(g.d, p, g.id, g.color, g.key, g.sib));
      if Hue(g.sib, nil) == Red {
        InorderOfPlug(g.up, Recoloured(c, z));
      } else {
        StraightenedKeepsEntries(c, z);
        InorderOfPlug(g.up, Straightened(c, z));
      }
    }
  }

  lemma FixedNotEmpty(c: Ctx, z: Tree, nil: Color)
    requires z.Node? && RootBlack(c)
    ensures InsertFixed(c, z, nil).Node?
  {
    FixedKeepsEntries(c, z, nil);
    InorderOfPlug(c, z);
    assert |Inorder(z)| > 0;
  }

  lemma StraightenedKeepsEntries(c: Ctx, z: Tree)
    requires c.In? && c.up.In? && z.Node?
    ensures var g, p := c.up, Mk(c.d, z, c.id, c.color, c.key, c.sib);
      Inorder(Straightened(c, z)) == Inorder(Mk(g.d, p, g.id, g.color, g.key, g.sib))
  {
    var g, p := c.up, Mk(c.d, z, c.id, c.color, c.key, c.sib);
    var p' := if c.d == g.d then p else Rotated(g.d, p);
    if c.d != g.d { RotatedKeepsInorder(g.d, p); }
    assert Inorder(Paint(p', Black)) == Inorder(p);
    RotatedKeepsInorder(Other(g.d), Mk(g.d, Paint(p', Black), g.id, Red, g.key, g.sib));
  }

  /** Set insertion: a present key changes nothing, a new one is spliced in at its sorted place. */
  lemma InsertedEntries(t: Tree, k: int, id: Ptr, nil: Color)
    requires ColorOf(t) == Black && Sorted(Inorder(t))
    ensures Find(Root, t, k).t.Node? ==> Inserted(t, k, id, nil) == t && exists i :: 0 <= i < |Inorder(t)| && Inorder(t)[i].key == k
    ensures Find(Root, t, k).t.Leaf? ==>
      var c := Find(Root, t, k).c;
      && Inorder(t) == Before(c) + After(c)
      && Inorder(Inserted(t, k, id, nil)) == Before(c) + [Entry(id, k)] + After(c)
      && AllBelow(Before(c), k) && AllAbove(After(c), k)
    ensures Sorted(Inorder(Inserted(t, k, id, nil)))
  {
    var z := Find(Root, t, k);
    FindPlugs(Root, t, k);
    InorderOfPlug(z.c, z.t);
    ColorOfPlug(z.c, z.t);
    if z.t.Node? {
      assert Inorder(t)[|Before(z.c)| + |Inorder(z.t.left)|] == Entry(z.t.id, k);
    } else {
      FindSeparates(Root, t, k);
      assert Inorder(t) == Before(z.c) + After(z.c);
      var n := Node(Leaf, id, Red, k, Leaf);
      assert Inorder(n) == [Entry(id, k)];
      InorderOfPlug(z.c, n);
      FixedKeepsEntries(z.c, n, nil);
      SortedSplice(Before(z.c), Entry(id, k), After(z.c));
    }
  }

  lemma SortedTail(s: seq<Entry>)
    requires s != [] && Sorted(s)
    ensures Sorted(s[1..])
  {
  }

  lemma SortedAbove(s: seq<Entry>, k: int)
    requires Sorted(s) && (s == [] || k < s[0].key)
    ensures AllAbove(s, k)
  {
  }

  lemma SortedSplice(l: seq<Entry>, e: Entry, r: seq<Entry>)
    requires Sorted(l + r) && AllBelow(l, e.key) && AllAbove(r, e.key)
    ensures Sorted(l + [e] + r)
  {
    var s, u := l + r, l + [e] + r;
    forall i, j | 0 <= i < j < |u| ensures u[i].key < u[j].key {
      assert i != |l| ==> u[i] == s[if i < |l| then i else i - 1];
      assert j != |l| ==> u[j] == s[if j < |l| then j else j - 1];
    }
  }

  /** A fresh handle keeps the handles distinct. */
  lemma InsertedDistinct(t: Tree, k: int, id: Ptr, nil: Color)
    requires ColorOf(t) == Black && Distinct(t) && id != NIL && id !in Nodes(t)
    ensures Distinct(Inserted(t, k, id, nil))
    ensures Find(Root, t, k).t.Leaf? ==> Nodes(Inserted(t, k, id, nil)) == Nodes(t) + {id}
  {
    var z := Find(Root, t, k);
    FindPlugs(Root, t, k);
    ColorOfPlug(z.c, z.t);
    if z.t.Leaf? {
      var n := Node(Leaf, id, Red, k, Leaf);
      NodesOfPlug(z.c, n);
      NodesOfPlug(z.c, z.t);
      FixedKeepsEntries(z.c, n, nil);
      SameHandles(Plug(z.c, n), Inserted(t, k, id, nil));
    }
  }

  lemma UniformStraightened(c: Ctx, z: Tree, h: nat)
    requires z.Node? && c.In? && c.up.In? && z.color == Red && c.color == Red && c.up.color == Black
    requires Uniform(z) && BlackHeight(z) == h
    requires UniformCtx(c, h) && ColorOf(c.up.sib) == Black
    ensures var s := Straightened(c, z);
      Uniform(s) && BlackHeight(s) == h + 1 && s.color == Black && s.left.Node? && s.right.Node?
  {
  }

  lemma FertileStraightened(c: Ctx, z: Tree)
    requires z.Node? && c.In? && c.up.In? && z.color == Red && z.left.Leaf? && z.right.Leaf?
    requires c.color == Red && c.up.color == Black && ColorOf(c.up.sib) == Black
    requires FertileCtx(c, true)
    ensures Fertile(Straightened(c, z), Black)
  {
  }

  lemma RecolouredKeeps(c: Ctx, z: Tree, h: nat, above: Color)
    requires z.Node? && c.In? && c.up.In? && z.color == Red && z.left.Leaf? && z.right.Leaf?
    requires c.color == Red && c.up.color == Black && ColorOf(c.up.sib) == Red
    requires Uniform(z) && BlackHeight(z) == h && UniformCtx(c, h)
    ensures var s := Recoloured(c, z); Uniform(s) && BlackHeight(s) == h + 1
    ensures FertileCtx(c, true) ==> Fertile(Recoloured(c, z), above)
    ensures NoRedRedCtx(c, Black) ==> NoRedRed(Recoloured(c, z))
  {
    var u := c.up.sib;
    assert Uniform(Paint(u, Black)) && BlackHeight(Paint(u, Black)) == h + 1;
    assert FertileCtx(c, true) ==> FertileCtx(c.up, true);
    assert NoRedRedCtx(c, Black) ==> NoRedRedCtx(c.up, c.color);
    if FertileCtx(c, true) {
      FertileUnderBlack(c.sib, c.color);
      FertileUnderBlack(u.left, u.color);
      FertileUnderBlack(u.right, u.color);
      assert Fertile(Paint(u, Black), Red);
      assert Fertile(Mk(c.d, z, c.id, Black, c.key, c.sib), Red);
    }
    assert NoRedRedCtx(c, Black) ==> NoRedRed(u) && NoRedRed(Paint(u, Black));
  }

  /** Over every run of insertions the black height stays uniform, although red may touch red. */
  lemma InsertedKeepsInvariant(t: Tree, k: int, id: Ptr)
    requires InsertInv(t)
    ensures InsertInv(Inserted(t, k, id, Black))
  {
    var f := Find(Root, t, k);
    FindPlugs(Root, t, k);
    if f.t.Leaf? {
      var c, z := f.c, Node(Leaf, id, Red, k, Leaf);
      ColorOfPlug(c, f.t);
      UniformPlug(c, f.t);
      FertilePlug(c, f.t);
      if CtxColor(c) == Black {
        UniformPlug(c, z);
        FertilePlug(c, z);
      } else {
        var g := c.up;
        assert g.color == Black;
        if ColorOf(g.sib) == Red {
          RecolouredKeeps(c, z, 0, CtxColor(g.up));
          UniformPlug(g.up, Recoloured(c, z));
          FertilePlug(g.up, Recoloured(c, z));
        } else {
          UniformStraightened(c, z, 0);
          FertileStraightened(c, z);
          UniformPlug(g.up, Straightened(c, z));
          FertilePlug(g.up, Straightened(c, z));
        }
      }
      PaintRoot(InsertFixed(c, z, Black));
    }
  }

  /** Blackening the root of a tree keeps what insertions keep. */
  lemma PaintRoot(t: Tree)
    requires Uniform(t) && Fertile(t, Black)
    ensures InsertInv(Paint(t, Black))
  {
  }

  lemma FertileUnderBlack(t: Tree, above: Color)
    requires Fertile(t, above)
    ensures Fertile(t, Black)
  {
  }

  /** The fix-up stops short of a red node that now sits under a red parent. */
  ghost predicate LeavesRedRed(t: Tree, k: int) {
    var f := Find(Root, t, k);
    && f.t.Leaf? && CtxColor(f.c) == Red && f.c.up.In?
    && ColorOf(f.c.up.sib) == Red && CtxColor(f.c.up.up) == Red
  }

  /** From a red-black tree, insertion gives a red-black tree exactly when the recoloured
      grandparent does not have a red parent itself. */
  lemma InsertedRedBlackIff(t: Tree, k: int, id: Ptr)
    requires RedBlack(t)
    ensures RedBlack(Inserted(t, k, id, Black)) <==> !LeavesRedRed(t, k)
  {
    var f := Find(Root, t, k);
    FindPlugs(Root, t, k);
    if f.t.Leaf? {
      var c, z := f.c, Node(Leaf, id, Red, k, Leaf);
      ColorOfPlug(c, f.t);
      UniformPlug(c, f.t);
      NoRedRedPlug(c, f.t);
      if CtxColor(c) == Black {
        UniformPlug(c, z);
        NoRedRedPlug(c, z);
      } else {
        var g := c.up;
        if ColorOf(g.sib) == Red {
          RecolouredKeeps(c, z, 0, Black);
          UniformPlug(g.up, Recoloured(c, z));
          NoRedRedPlug(g.up, Recoloured(c, z));
          ColorOfPlug(g.up, Recoloured(c, z));
          ColorOfPlug(g.up, Mk(g.d, Mk(c.d, f.t, c.id, c.color, c.key, c.sib), g.id, g.color, g.key, g.sib));
          assert NoRedRedCtx(g, c.color) && NoRedRedCtx(g.up, g.color);
        } else {
          UniformStraightened(c, z, 0);
          UniformPlug(g.up, Straightened(c, z));
          NoRedRedPlug(g.up, Straightened(c, z));
        }
      }
    }
  }

  /** A run of insertions; node number `id` is the first address handed out. */
  ghost function InsertAll(t: Tree, ks: seq<int>, id: Ptr): Tree
    requires InsertInv(t)
    decreases |ks|
  {
    if ks == [] then t
    else
      InsertedKeepsInvariant(t, ks[0], id);
      InsertAll(Inserted(t, ks[0], id, Black), ks[1..], id + 1)
  }

  ghost function Keys(s: seq<Entry>): set<int> {
    set i | 0 <= i < |s| :: s[i].key
  }

  /** Every run of insertions ends in a search tree of uniform black height that holds the keys it
      started with and the keys inserted. */
  lemma {:induction false} InsertAllCorrect(t: Tree, ks: seq<int>, id: Ptr)
    requires InsertInv(t) && Sorted(Inorder(t))
    ensures InsertInv(InsertAll(t, ks, id)) && Sorted(Inorder(InsertAll(t, ks, id)))
    ensures Keys(Inorder(InsertAll(t, ks, id))) == Keys(Inorder(t)) + set k | k in ks
    decreases |ks|
  {
    if ks != [] {
      var k := ks[0];
      InsertedKeepsInvariant(t, k, id);
      InsertedKeys(t, k, id, Black);
      InsertAllCorrect(Inserted(t, k, id, Black), ks[1..], id + 1);
      assert ks == [k] + ks[1..];
    }
  }

  lemma InsertedKeys(t: Tree, k: int, id: Ptr, nil: Color)
    requires ColorOf(t) == Black && Sorted(Inorder(t))
    ensures Keys(Inorder(Inserted(t, k, id, nil))) == Keys(Inorder(t)) + {k} && Sorted(Inorder(Inserted(t, k, id, nil)))
  {
    InsertedEntries(t, k, id, nil);
    var f := Find(Root, t, k);
    if f.t.Leaf? {
      KeysConcat(Before(f.c), After(f.c));
      KeysConcat(Before(f.c) + [Entry(id, k)], After(f.c));
      KeysConcat(Before(f.c), [Entry(id, k)]);
      assert [Entry(id, k)][0].key == k;
      assert Keys([Entry(id, k)]) == {k};
    }
  }

  lemma KeysConcat(s: seq<Entry>, u: seq<Entry>)
    ensures Keys(s + u) == Keys(s) + Keys(u)
  {
    forall k | k in Keys(u) ensures k in Keys(s + u) {
      var i :| 0 <= i < |u| && u[i].key == k;
      assert (s + u)[|s| + i].key == k;
    }
    forall k | k in Keys(s) ensures k in Keys(s + u) {
      var i :| 0 <= i < |s| && s[i].key == k;
      assert (s + u)[i].key == k;
    }
  }

  /** The tree that the keys 1 to `n` build when inserted in ascending order. */
  ghost function Ascending(n: nat): (t: Tree)
    ensures InsertInv(t)
  {
    if n == 0 then Leaf
    else
      InsertedKeepsInvariant(Ascending(n - 1), n, n);
      Inserted(Ascending(n - 1), n, n, Black)
  }

  /** Ascending keys lose the red-black property at the eighth insertion. */
  lemma AscendingLosesRedBlack()
    ensures RedBlack(Ascending(7)) && !RedBlack(Ascending(8))
  {
    var left := Node(Leaf, 1, Black, 1, Leaf);
    assert Ascending(1) == left;
    assert Ascending(2) == left.(right := Node(Leaf, 2, Red, 2, Leaf));
    assert Ascending(3) == Node(Paint(left, Red), 2, Black, 2, Node(Leaf, 3, Red, 3, Leaf));
    assert Ascending(4) == Node(left, 2, Black, 2, Node(Leaf, 3, Black, 3, Node(Leaf, 4, Red, 4, Leaf)));
    assert Ascending(5) == Node(left, 2, Black, 2, Node(Node(Leaf, 3, Red, 3, Leaf), 4, Black, 4, Node(Leaf, 5, Red, 5, Leaf)));
    var low := Node(Leaf, 3, Black, 3, Leaf);
    assert Ascending(6) == Node(left, 2, Black, 2, Node(low, 4, Red, 4, Node(Leaf, 5, Black, 5, Node(Leaf, 6, Red, 6, Leaf))));
    assert Ascending(7) == Node(left, 2, Black, 2,
      Node(low, 4, Red, 4, Node(Node(Leaf, 5, Red, 5, Leaf), 6, Black, 6, Node(Leaf, 7, Red, 7, Leaf))));
    InsertedRedBlackIff(Ascending(7), 8, 8);
  }
}
