/**
 Red-black trees as values: shape, colours, in-order contents, and one-hole contexts.

 The tree code of the kernel is written once per direction by a macro that swaps the
 two child fields; here a direction is an ordinary argument.
 */
module Trees {

  /** A node handle: the address of a tree node, as callers store it. */
  type Ptr = nat

  /** The address of the sentinel node. */
  const NIL: Ptr := 0

  datatype Color = Red | Black

  datatype Dir = Left | Right

  function Other(d: Dir): Dir {
    if d == Left then Right else Left
  }

  datatype Tree =
    | Leaf
    | Node(left: Tree, id: Ptr, color: Color, key: int, right: Tree)

  /** A node whose child on side `d` is `near` and whose other child is `far`. */
  function Mk(d: Dir, near: Tree, id: Ptr, color: Color, key: int, far: Tree): Tree {
    if d == Left then Node(near, id, color, key, far) else Node(far, id, color, key, near)
  }

  function Kid(t: Tree, d: Dir): Tree
    requires t.Node?
  {
    if d == Left then t.left else t.right
  }

  function Top(t: Tree): Ptr {
    if t.Leaf? then NIL else t.id
  }

  function ColorOf(t: Tree): Color {
    if t.Leaf? then Black else t.color
  }

  /** The colour that the code reads at the root of `t` when the sentinel has the colour `nil`. */
  function Hue(t: Tree, nil: Color): Color {
    if t.Leaf? then nil else t.color
  }

  function Paint(t: Tree, color: Color): Tree {
    if t.Leaf? then Leaf else t.(color := color)
  }

  /** What a stored handle promises: this node carries this key. */
  datatype Entry = Entry(id: Ptr, key: int)

  /** The entries of a tree from left to right. */
  function Inorder(t: Tree): seq<Entry> {
    if t.Leaf? then [] else Inorder(t.left) + [Entry(t.id, t.key)] + Inorder(t.right)
  }

  /** The handle at the head of a list of entries, or the sentinel. */
  function FirstId(s: seq<Entry>): Ptr {
    if s == [] then NIL else s[0].id
  }

  function Nodes(t: Tree): set<Ptr> {
    if t.Leaf? then {} else Nodes(t.left) + {t.id} + Nodes(t.right)
  }

  /** No handle occurs twice, and none is the sentinel. */
  ghost predicate Distinct(t: Tree) {
    t.Node? ==>
      && t.id != NIL
      && t.id !in Nodes(t.left) && t.id !in Nodes(t.right)
      && Nodes(t.left) !! Nodes(t.right)
      && Distinct(t.left) && Distinct(t.right)
  }

  /** Keys strictly increase: the search-tree property, and with it key uniqueness. */
  ghost predicate Sorted(s: seq<Entry>) {
    forall i, j :: 0 <= i < j < |s| ==> s[i].key < s[j].key
  }

  /** A tree with one subtree missing; `sib` hangs beside the hole. */
  datatype Ctx =
    | Root
    | In(up: Ctx, d: Dir, id: Ptr, color: Color, key: int, sib: Tree)

  function Plug(c: Ctx, t: Tree): Tree {
    match c
    case Root => t
    case In(up, d, id, color, key, sib) => Plug(up, Mk(d, t, id, color, key, sib))
  }

  /** The handle of the node right above the hole. */
  function Up(c: Ctx): Ptr {
    if c.Root? then NIL else c.id
  }

  function CtxNodes(c: Ctx): set<Ptr> {
    if c.Root? then {} else CtxNodes(c.up) + {c.id} + Nodes(c.sib)
  }

  ghost predicate DistinctCtx(c: Ctx) {
    c.In? ==>
      && c.id != NIL
      && c.id !in Nodes(c.sib) && c.id !in CtxNodes(c.up)
      && Nodes(c.sib) !! CtxNodes(c.up)
      && Distinct(c.sib) && DistinctCtx(c.up)
  }

  /** The entries left of the hole. */
  function Before(c: Ctx): seq<Entry> {
    match c
    case Root => []
    case In(up, d, id, _, key, sib) =>
      if d == Left then Before(up) else Before(up) + Inorder(sib) + [Entry(id, key)]
  }

  /** The entries right of the hole. */
  function After(c: Ctx): seq<Entry> {
    match c
    case Root => []
    case In(up, d, id, _, key, sib) =>
      if d == Left then [Entry(id, key)] + Inorder(sib) + After(up) else After(up)
  }

  /** A subtree in focus together with everything around it. */
  datatype Zip = Zip(t: Tree, c: Ctx)

  /** Filling the hole splices the entries of the subtree between those around it. */
  lemma {:induction false} InorderOfPlug(c: Ctx, t: Tree)
    ensures Inorder(Plug(c, t)) == Before(c) + Inorder(t) + After(c)
  {
    if c.In? {
      InorderOfPlug(c.up, Mk(c.d, t, c.id, c.color, c.key, c.sib));
    }
  }

  /** The handles of a filled context, and when they are distinct. */
  lemma {:induction false} NodesOfPlug(c: Ctx, t: Tree)
    ensures Nodes(Plug(c, t)) == CtxNodes(c) + Nodes(t)
    ensures Distinct(Plug(c, t)) <==> Distinct(t) && DistinctCtx(c) && Nodes(t) !! CtxNodes(c)
  {
    if c.In? {
      NodesOfPlug(c.up, Mk(c.d, t, c.id, c.color, c.key, c.sib));
    }
  }

  lemma {:induction false} TopOfPlug(c: Ctx, t: Tree)
    ensures Top(Plug(c, t)) in if c.Root? then {Top(t)} else CtxNodes(c)
  {
    if c.In? {
      TopOfPlug(c.up, Mk(c.d, t, c.id, c.color, c.key, c.sib));
    }
  }

  /** Every node of a tree can be brought into focus. */
  ghost function Focus(c: Ctx, t: Tree, id: Ptr): (z: Zip)
    requires id in Nodes(t)
    ensures z.t.Node? && z.t.id == id && Plug(z.c, z.t) == Plug(c, t)
    decreases t
  {
    if t.id == id then Zip(t, c)
    else if id in Nodes(t.left) then Focus(In(c, Left, t.id, t.color, t.key, t.right), t.left, id)
    else Focus(In(c, Right, t.id, t.color, t.key, t.left), t.right, id)
  }

  /** The rotation of the source: the child on the far side of `d` rises, `t` descends on side `d`. */
  function Rotated(d: Dir, t: Tree): Tree
    requires t.Node? && Kid(t, Other(d)).Node?
  {
    var y := Kid(t, Other(d));
    Mk(d, Mk(d, Kid(t, d), t.id, t.color, t.key, Kid(y, d)), y.id, y.color, y.key, Kid(y, Other(d)))
  }

  /** Rotation moves no entry. */
  lemma RotatedKeepsInorder(d: Dir, t: Tree)
    requires t.Node? && Kid(t, Other(d)).Node?
    ensures Inorder(Rotated(d, t)) == Inorder(t) && Nodes(Rotated(d, t)) == Nodes(t)
  {
  }

  ghost predicate NoDuplicates(s: seq<Entry>) {
    forall i, j :: 0 <= i < j < |s| ==> s[i].id != s[j].id
  }

  ghost predicate Holds(s: seq<Entry>, id: Ptr) {
    exists i :: 0 <= i < |s| && s[i].id == id
  }

  /** Whether handles are distinct can be read off the in-order entries. */
  lemma {:induction false} EntriesDecide(t: Tree)
    ensures forall id :: id in Nodes(t) <==> Holds(Inorder(t), id)
    ensures Distinct(t) <==> NoDuplicates(Inorder(t)) && NIL !in Nodes(t)
  {
    if t.Node? {
      EntriesDecide(t.left);
      EntriesDecide(t.right);
      var l, e, r := Inorder(t.left), Entry(t.id, t.key), Inorder(t.right);
      forall id ensures Holds(l + [e] + r, id) <==> Holds(l, id) || id == t.id || Holds(r, id) {
        HoldsConcat(l + [e], r, id);
        HoldsConcat(l, [e], id);
        assert Holds([e], id) <==> [e][0].id == id;
      }
      DistinctConcat(l, e, r);
    }
  }

  lemma HoldsConcat(s: seq<Entry>, u: seq<Entry>, id: Ptr)
    ensures Holds(s + u, id) <==> Holds(s, id) || Holds(u, id)
  {
    if Holds(s, id) {
      var i :| 0 <= i < |s| && s[i].id == id;
      assert (s + u)[i].id == id;
    }
    if Holds(u, id) {
      var i :| 0 <= i < |u| && u[i].id == id;
      assert (s + u)[|s| + i].id == id;
    }
  }

  lemma DistinctConcat(l: seq<Entry>, e: Entry, r: seq<Entry>)
    ensures NoDuplicates(l + [e] + r) <==>
      && NoDuplicates(l) && NoDuplicates(r) && !Holds(l, e.id) && !Holds(r, e.id)
      && forall id :: Holds(l, id) ==> !Holds(r, id)
  {
    var s := l + [e] + r;
    assert s[|l|] == e;
    assert forall i :: 0 <= i < |l| ==> s[i] == l[i];
    assert forall i :: 0 <= i < |r| ==> s[|l| + 1 + i] == r[i];
    if NoDuplicates(s) {
      forall i, j | 0 <= i < |l| && 0 <= j < |r| ensures l[i].id != r[j].id {
        assert s[i].id != s[|l| + 1 + j].id;
      }
      forall i, j | 0 <= i < j < |r| ensures r[i].id != r[j].id {
        assert s[|l| + 1 + i].id != s[|l| + 1 + j].id;
      }
    } else {
      var i, j :| 0 <= i < j < |s| && s[i].id == s[j].id;
      assert i < |l| ==> Holds(l, s[i].id);
      assert j > |l| ==> Holds(r, s[j].id);
    }
  }

  /** Trees with the same entries have the same handles. */
  lemma SameHandles(t: Tree, u: Tree)
    requires Inorder(t) == Inorder(u)
    ensures Nodes(t) == Nodes(u) && (Distinct(t) <==> Distinct(u))
  {
    EntriesDecide(t);
    EntriesDecide(u);
  }
}
