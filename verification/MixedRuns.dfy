/**
 Insertions and removals mixed. As long as no removal raises the sentinel, the tree is a set; and a run in
 which one does.
 */
module MixedRuns {
  import opened Trees
  import opened Balance
  import opened Removal

  /** The operations; the node of a key has its successor as its handle. */
  datatype Op = Put(key: nat) | Take(key: nat)

  /** What holds of the tree until entries are lost. */
  ghost predicate Fine(f: Fate) {
    f.Kept? ==> ColorOf(f.t) == Black && (f.t.Leaf? ==> f.nil == Black)
  }

  ghost function Applied(f: Fate, op: Op): (g: Fate)
    requires Fine(f)
    ensures Fine(g)
  {
    if f.Lost? then f
    else
      match op
      case Put(k) => PutFine(f.t, k, f.nil); Kept(Inserted(f.t, k, k + 1, f.nil), InsertedNil(f.t, k, f.nil))
      case Take(k) => if k + 1 in Nodes(f.t) then ErasedRoot(f.t, k + 1, f.nil); Erased(f.t, k + 1, f.nil) else f
  }

  lemma PutFine(t: Tree, k: nat, nil: Color)
    requires ColorOf(t) == Black && (t.Leaf? ==> nil == Black)
    ensures var u := Inserted(t, k, k + 1, nil); u.Node? && u.color == Black
  {
    var z := Find(Root, t, k);
    FindPlugs(Root, t, k);
    ColorOfPlug(z.c, z.t);
    if z.t.Leaf? {
      FixedNotEmpty(z.c, Node(Leaf, k + 1, Red, k, Leaf), nil);
    }
  }

  /** What a run from the empty tree leads to; it stops at a tree that has lost entries. */
  ghost function Outcome(ops: seq<Op>): (f: Fate)
    ensures Fine(f)
  {
    if ops == [] then Kept(Leaf, Black) else Applied(Outcome(ops[..|ops| - 1]), ops[|ops| - 1])
  }

  /** The keys that the run has put and not taken since. */
  function Held(ops: seq<Op>): set<int> {
    if ops == [] then {}
    else
      var s := Held(ops[..|ops| - 1]);
      match ops[|ops| - 1]
      case Put(k) => s + {k}
      case Take(k) => s - {k}
  }

  /** Operation `n` of the run takes a key from a tree in which that loses others. */
  ghost predicate LosesAt(ops: seq<Op>, n: nat) {
    && n < |ops| && ops[n].Take?
    && var f, id := Outcome(ops[..n]), ops[n].key + 1; f.Kept? && id in Nodes(f.t) && Loses(f.t, id, f.nil)
  }

  /** Each entry has the handle of its key. */
  ghost predicate Named(s: seq<Entry>) {
    forall i :: 0 <= i < |s| ==> s[i].id == s[i].key + 1
  }

  ghost predicate IsSet(t: Tree, keys: set<int>) {
    Sorted(Inorder(t)) && Named(Inorder(t)) && Distinct(t) && Keys(Inorder(t)) == keys
  }

  lemma PutIsSet(t: Tree, k: nat, nil: Color, keys: set<int>)
    requires IsSet(t, keys) && ColorOf(t) == Black
    ensures IsSet(Inserted(t, k, k + 1, nil), keys + {k})
  {
    hide Inserted, Inorder, Find, Distinct, Nodes, Before, After, Keys, Sorted;
    InsertedKeys(t, k, k + 1, nil);
    InsertedEntries(t, k, k + 1, nil);
    if Find(Root, t, k).t.Leaf? {
      var c := Find(Root, t, k).c;
      NewHandle(t, k, Before(c), After(c));
      InsertedDistinct(t, k, k + 1, nil);
      NamedSplice(Before(c), k, After(c));
    }
  }

  lemma NewHandle(t: Tree, k: nat, l: seq<Entry>, r: seq<Entry>)
    requires Named(Inorder(t)) && Inorder(t) == l + r && AllBelow(l, k) && AllAbove(r, k)
    ensures k + 1 !in Nodes(t)
  {
    hide Inorder, Nodes;
    EntriesDecide(t);
    HoldsConcat(l, r, k + 1);
    assert forall i :: 0 <= i < |l| ==> l[i] == (l + r)[i];
    assert forall i :: 0 <= i < |r| ==> r[i] == (l + r)[|l| + i];
  }

  lemma NamedSplice(l: seq<Entry>, k: int, r: seq<Entry>)
    requires Named(l + r) && k >= 0
    ensures Named(l + [Entry(k + 1, k)] + r)
  {
    var u := l + [Entry(k + 1, k)] + r;
    forall i | 0 <= i < |u| ensures u[i].id == u[i].key + 1 {
      assert i != |l| ==> u[i] == (l + r)[if i < |l| then i else i - 1];
    }
  }

  lemma TakeIsSet(t: Tree, k: nat, nil: Color, keys: set<int>)
    requires IsSet(t, keys) && k + 1 in Nodes(t) && !Loses(t, k + 1, nil)
    ensures Erased(t, k + 1, nil).Kept? && IsSet(Erased(t, k + 1, nil).t, keys - {k})
  {
    hide Erased, Loses, Inorder, Nodes, Distinct, Without, Sorted, Named, Keys;
    ErasedEntries(t, k + 1, nil);
    EntriesDecide(t);
    TakenOut(Inorder(t), k);
  }

  lemma TakenOut(s: seq<Entry>, k: nat)
    requires Sorted(s) && Named(s) && NoDuplicates(s) && Holds(s, k + 1)
    ensures var u := Without(s, k + 1); Sorted(u) && Named(u) && Keys(u) == Keys(s) - {k}
  {
    hide Without, Sorted, Keys;
    var i :| 0 <= i < |s| && s[i].id == k + 1;
    assert s == s[..i] + [s[i]] + s[i + 1..];
    WithoutSplit(s[..i], s[i], s[i + 1..]);
    OneLess(s, i);
  }

  lemma OneLess(s: seq<Entry>, i: int)
    requires 0 <= i < |s| && Sorted(s) && Named(s)
    ensures var u := s[..i] + s[i + 1..]; Sorted(u) && Named(u) && Keys(u) == Keys(s) - {s[i].key}
  {
    var u := s[..i] + s[i + 1..];
    assert forall j :: 0 <= j < |u| ==> u[j] == s[if j < i then j else j + 1];
    forall k | k in Keys(s) && k != s[i].key ensures k in Keys(u) {
      var j :| 0 <= j < |s| && s[j].key == k;
      assert u[if j < i then j else j - 1].key == k;
    }
  }

  lemma NotTaken(t: Tree, k: nat, keys: set<int>)
    requires IsSet(t, keys)
    ensures k + 1 in Nodes(t) <==> k in keys
  {
    hide Inorder, Nodes;
    var s := Inorder(t);
    EntriesDecide(t);
    if k in keys {
      var i :| 0 <= i < |s| && s[i].key == k;
      assert Holds(s, k + 1);
    }
  }

  /** Over every mixed run: the tree is exactly the set of the keys put and not taken, in order and each at
      its handle, unless on the way a removal was made that raises the sentinel. */
  lemma {:induction false} MixedRun(ops: seq<Op>)
    ensures Outcome(ops).Lost? <==> exists n: nat :: LosesAt(ops, n)
    ensures Outcome(ops).Kept? ==> IsSet(Outcome(ops).t, Held(ops))
  {
    hide Erased, Loses, Inserted, InsertedNil, IsSet;
    if ops == [] {
      EmptyIsSet();
    } else {
      var m := |ops| - 1;
      var front, op := ops[..m], ops[m];
      MixedRun(front);
      assert forall n: nat :: n < m ==> front[..n] == ops[..n] && front[n] == ops[n];
      assert forall n: nat :: n < m ==> (LosesAt(front, n) <==> LosesAt(ops, n));
      var f := Outcome(front);
      if f.Kept? {
        if op.Put? {
          PutIsSet(f.t, op.key, f.nil, Held(front));
        } else {
          NotTaken(f.t, op.key, Held(front));
          if op.key + 1 in Nodes(f.t) {
            ErasedLoses(f.t, op.key + 1, f.nil);
            if !Loses(f.t, op.key + 1, f.nil) {
              TakeIsSet(f.t, op.key, f.nil, Held(front));
            }
          } else {
            assert Held(front) - {op.key} == Held(front);
          }
        }
        assert Outcome(ops).Lost? <==> LosesAt(ops, m);
      }
    }
  }

  lemma EmptyIsSet()
    ensures IsSet(Leaf, {})
  {
  }

  /** After every run of insertions, the first removal is right. */
  lemma AfterInsertions(ks: seq<int>, first: Ptr, id: Ptr)
    requires id in Nodes(InsertAll(Leaf, ks, first))
    ensures !Loses(InsertAll(Leaf, ks, first), id, Black)
  {
    InsertAllCorrect(Leaf, ks, first);
    ErasedFromUniform(InsertAll(Leaf, ks, first), id);
    ErasedLoses(InsertAll(Leaf, ks, first), id, Black);
  }

  // ---- A run that loses entries ---------------------------------------------

  function N(left: Tree, k: nat, color: Color, right: Tree): Tree {
    Node(left, k + 1, color, k, right)
  }

  function One(k: nat, color: Color): Tree {
    N(Leaf, k, color, Leaf)
  }

  lemma Take1(t: Tree)
    requires t == N(One(1, Black), 2, Black, N(Leaf, 3, Black, One(4, Red)))
    ensures 2 in Nodes(t) && Erased(t, 2, Black) == Kept(N(One(2, Black), 3, Black, One(4, Black)), Black)
  {
    var c1 := In(Root, Left, 3, Black, 2, N(Leaf, 3, Black, One(4, Red)));
    assert Focus(Root, t, 2) == Zip(One(1, Black), c1);
  }

  lemma Take2(t: Tree)
    requires t == N(One(2, Black), 3, Black, N(Leaf, 4, Black, One(11, Red)))
    ensures 3 in Nodes(t) && Erased(t, 3, Black) == Kept(N(One(3, Black), 4, Black, One(11, Black)), Black)
  {
    var c1 := In(Root, Left, 4, Black, 3, N(Leaf, 4, Black, One(11, Red)));
    assert Focus(Root, t, 3) == Zip(One(2, Black), c1);
  }

  lemma Take3(t: Tree)
    requires t == N(One(3, Black), 4, Black, N(N(One(5, Black), 6, Red, N(Leaf, 7, Black, One(8, Red))), 11, Red, One(22, Black)))
    ensures 4 in Nodes(t) && Erased(t, 4, Black) == Kept(N(N(Leaf, 4, Black, N(One(5, Black), 6, Red, N(Leaf, 7, Black, One(8, Red)))), 11, Black, One(22, Black)), Black)
  {
    var c1 := In(Root, Left, 5, Black, 4, N(N(One(5, Black), 6, Red, N(Leaf, 7, Black, One(8, Red))), 11, Red, One(22, Black)));
    assert Focus(Root, t, 4) == Zip(One(3, Black), c1);
  }

  lemma Take4(t: Tree)
    requires t == N(N(Leaf, 4, Black, N(One(5, Black), 6, Red, N(Leaf, 7, Black, One(8, Red)))), 11, Black, One(22, Black))
    ensures 5 in Nodes(t) && Erased(t, 5, Black) == Kept(N(N(One(5, Black), 6, Black, N(Leaf, 7, Black, One(8, Red))), 11, Black, One(22, Black)), Black)
  {
    var c1 := In(Root, Left, 12, Black, 11, One(22, Black));
    assert Focus(Root, t, 5) == Zip(N(Leaf, 4, Black, N(One(5, Black), 6, Red, N(Leaf, 7, Black, One(8, Red)))), c1);
  }

  lemma Take5(t: Tree)
    requires t == N(N(One(5, Black), 6, Black, N(Leaf, 7, Black, One(8, Red))), 11, Black, N(One(14, Red), 22, Black, Leaf))
    ensures 6 in Nodes(t) && Erased(t, 6, Black) == Kept(N(N(One(6, Black), 7, Black, One(8, Black)), 11, Black, N(One(14, Red), 22, Black, Leaf)), Black)
  {
    var c1 := In(Root, Left, 12, Black, 11, N(One(14, Red), 22, Black, Leaf));
    var c2 := In(c1, Left, 7, Black, 6, N(Leaf, 7, Black, One(8, Red)));
    assert Focus(Root, t, 6) == Zip(One(5, Black), c2);
  }

  lemma Take6(t: Tree)
    requires t == N(N(One(6, Black), 7, Black, One(8, Black)), 11, Black, N(One(14, Red), 22, Black, Leaf))
    ensures 7 in Nodes(t) && Erased(t, 7, Black) == Kept(N(N(N(Leaf, 7, Black, One(8, Red)), 11, Black, Leaf), 14, Black, One(22, Black)), Black)
  {
    var c1 := In(Root, Left, 12, Black, 11, N(One(14, Red), 22, Black, Leaf));
    var c2 := In(c1, Left, 8, Black, 7, One(8, Black));
    assert Focus(Root, t, 7) == Zip(One(6, Black), c2);
    assert Step(Zip(Leaf, c2), Black) == On(Zip(N(Leaf, 7, Black, One(8, Red)), c1), Black);
  }

  lemma Take7(t: Tree)
    requires t == N(N(N(Leaf, 7, Black, One(8, Red)), 11, Black, Leaf), 14, Black, One(22, Black))
    ensures 8 in Nodes(t) && Erased(t, 8, Black) == Kept(N(N(One(8, Black), 11, Black, Leaf), 14, Black, One(22, Black)), Black)
  {
    var c1 := In(Root, Left, 15, Black, 14, One(22, Black));
    var c2 := In(c1, Left, 12, Black, 11, Leaf);
    assert Focus(Root, t, 8) == Zip(N(Leaf, 7, Black, One(8, Red)), c2);
  }

  /** Here a round meets a missing sibling and paints the sentinel red, and a later one repairs that. */
  lemma Take8(t: Tree)
    requires t == N(N(One(8, Black), 11, Black, Leaf), 14, Black, One(22, Black))
    ensures 9 in Nodes(t) && Erased(t, 9, Black) == Kept(N(N(One(11, Black), 14, Black, Leaf), 22, Black, Leaf), Black)
    ensures Meets(Unlinked(Focus(Root, t, 9)).hole)
  {
    var c1 := In(Root, Left, 15, Black, 14, One(22, Black));
    var c2 := In(c1, Left, 12, Black, 11, Leaf);
    assert Focus(Root, t, 9) == Zip(One(8, Black), c2);
    assert Step(Zip(Leaf, c2), Black) == On(Zip(One(11, Black), c1), Red);
    assert Step(Zip(One(11, Black), c1), Red) == On(Zip(N(N(One(11, Black), 14, Black, Leaf), 22, Black, Leaf), Root), Black);
  }

  /** And here the sentinel is raised in its place: the tree is empty afterwards, without 14 and 22. */
  lemma Take11(t: Tree)
    requires t == N(N(One(11, Black), 14, Black, Leaf), 22, Black, Leaf)
    ensures 12 in Nodes(t) && Erased(t, 12, Black) == Lost(Leaf)
  {
    var c1 := In(Root, Left, 23, Black, 22, Leaf);
    var c2 := In(c1, Left, 15, Black, 14, Leaf);
    assert Focus(Root, t, 12) == Zip(One(11, Black), c2);
    assert Step(Zip(Leaf, c2), Black) == On(Zip(One(14, Black), c1), Red);
  }

  lemma OutcomeMore(ops: seq<Op>, op: Op)
    ensures Outcome(ops + [op]) == Applied(Outcome(ops), op)
  {
    assert (ops + [op])[..|ops|] == ops;
  }

  /** The run, in four parts. */
  const NONE: seq<Op> := []
  const RUN1: seq<Op> := NONE + [Put(1)] + [Put(2)] + [Put(3)] + [Put(4)] + [Take(1)] + [Put(11)] + [Take(2)]
  const RUN2: seq<Op> := RUN1 + [Put(22)] + [Put(5)] + [Put(6)] + [Put(7)] + [Put(8)]
  const RUN3: seq<Op> := RUN2 + [Take(3)] + [Take(4)] + [Put(14)] + [Take(5)] + [Take(6)]
  const RUN: seq<Op> := RUN3 + [Take(7)] + [Take(8)] + [Take(11)]

  lemma FirstFour()
    ensures Outcome(NONE + [Put(1)] + [Put(2)] + [Put(3)] + [Put(4)]) == Kept(N(One(1, Black), 2, Black, N(Leaf, 3, Black, One(4, Red))), Black)
  {
    var a := NONE;
    OutcomeMore(a, Put(1));
    OutcomeMore(a + [Put(1)], Put(2));
    OutcomeMore(a + [Put(1)] + [Put(2)], Put(3));
    OutcomeMore(a + [Put(1)] + [Put(2)] + [Put(3)], Put(4));
    hide Outcome;
    assert Inserted(Leaf, 1, 2, Black) == One(1, Black);
    var t2, t3 := N(Leaf, 1, Black, One(2, Red)), N(One(1, Red), 2, Black, One(3, Red));
    assert Inserted(One(1, Black), 2, 3, Black) == t2 && Inserted(t2, 3, 4, Black) == t3;
  }

  lemma Run1()
    ensures Outcome(RUN1) == Kept(N(One(3, Black), 4, Black, One(11, Black)), Black)
  {
    hide Outcome, Erased, Nodes;
    FirstFour();
    var a := NONE + [Put(1)] + [Put(2)] + [Put(3)] + [Put(4)];
    OutcomeMore(a, Take(1));
    Take1(Outcome(a).t);
    OutcomeMore(a + [Take(1)], Put(11));
    OutcomeMore(a + [Take(1)] + [Put(11)], Take(2));
    var t := N(One(2, Black), 3, Black, One(4, Black));
    assert Inserted(t, 11, 12, Black) == N(One(2, Black), 3, Black, N(Leaf, 4, Black, One(11, Red)));
    Take2(N(One(2, Black), 3, Black, N(Leaf, 4, Black, One(11, Red))));
  }

  lemma Run2()
    ensures Outcome(RUN2) ==
      Kept(N(One(3, Black), 4, Black, N(N(One(5, Black), 6, Red, N(Leaf, 7, Black, One(8, Red))), 11, Red, One(22, Black))), Black)
  {
    hide Outcome;
    Run1();
    OutcomeMore(RUN1, Put(22));
    OutcomeMore(RUN1 + [Put(22)], Put(5));
    OutcomeMore(RUN1 + [Put(22)] + [Put(5)], Put(6));
    OutcomeMore(RUN1 + [Put(22)] + [Put(5)] + [Put(6)], Put(7));
    OutcomeMore(RUN1 + [Put(22)] + [Put(5)] + [Put(6)] + [Put(7)], Put(8));
    FourPuts();
    Put8();
  }

  lemma FourPuts()
    ensures var l := One(3, Black);
      && Inserted(N(l, 4, Black, One(11, Black)), 22, 23, Black) == N(l, 4, Black, N(Leaf, 11, Black, One(22, Red)))
      && Inserted(N(l, 4, Black, N(Leaf, 11, Black, One(22, Red))), 5, 6, Black) == N(l, 4, Black, N(One(5, Red), 11, Black, One(22, Red)))
      && Inserted(N(l, 4, Black, N(One(5, Red), 11, Black, One(22, Red))), 6, 7, Black)
         == N(l, 4, Black, N(N(Leaf, 5, Black, One(6, Red)), 11, Red, One(22, Black)))
      && Inserted(N(l, 4, Black, N(N(Leaf, 5, Black, One(6, Red)), 11, Red, One(22, Black))), 7, 8, Black)
         == N(l, 4, Black, N(N(One(5, Red), 6, Black, One(7, Red)), 11, Red, One(22, Black)))
  {
    var c11 := In(In(Root, Right, 5, Black, 4, One(3, Black)), Left, 12, Red, 11, One(22, Black));
    var t := N(Leaf, 5, Black, One(6, Red));
    assert Find(c11, t, 7) == Zip(Leaf, In(In(c11, Right, 6, Black, 5, Leaf), Right, 7, Red, 6, Leaf));
  }

  /** The eighth key in the tree leaves 6 red under the red 11. */
  lemma Put8()
    ensures Inserted(N(One(3, Black), 4, Black, N(N(One(5, Red), 6, Black, One(7, Red)), 11, Red, One(22, Black))), 8, 9, Black)
      == N(One(3, Black), 4, Black, N(N(One(5, Black), 6, Red, N(Leaf, 7, Black, One(8, Red))), 11, Red, One(22, Black)))
  {
    var t := N(One(3, Black), 4, Black, N(N(One(5, Red), 6, Black, One(7, Red)), 11, Red, One(22, Black)));
    var c11 := In(In(Root, Right, 5, Black, 4, One(3, Black)), Left, 12, Red, 11, One(22, Black));
    var c6 := In(c11, Right, 7, Black, 6, One(5, Red));
    assert Find(Root, t, 8) == Find(c11, N(One(5, Red), 6, Black, One(7, Red)), 8);
    assert Find(c6, One(7, Red), 8) == Zip(Leaf, In(c6, Right, 8, Red, 7, Leaf));
  }

  lemma Run3()
    ensures Outcome(RUN3) == Kept(N(N(N(Leaf, 7, Black, One(8, Red)), 11, Black, Leaf), 14, Black, One(22, Black)), Black)
  {
    hide Outcome, Erased, Nodes;
    Run2();
    OutcomeMore(RUN2, Take(3));
    Take3(Outcome(RUN2).t);
    OutcomeMore(RUN2 + [Take(3)], Take(4));
    Take4(Outcome(RUN2 + [Take(3)]).t);
    OutcomeMore(RUN2 + [Take(3)] + [Take(4)], Put(14));
    var t := N(N(One(5, Black), 6, Black, N(Leaf, 7, Black, One(8, Red))), 11, Black, One(22, Black));
    assert Inserted(t, 14, 15, Black) == N(t.left, 11, Black, N(One(14, Red), 22, Black, Leaf));
    OutcomeMore(RUN2 + [Take(3)] + [Take(4)] + [Put(14)], Take(5));
    Take5(Outcome(RUN2 + [Take(3)] + [Take(4)] + [Put(14)]).t);
    OutcomeMore(RUN2 + [Take(3)] + [Take(4)] + [Put(14)] + [Take(5)], Take(6));
    Take6(Outcome(RUN2 + [Take(3)] + [Take(4)] + [Put(14)] + [Take(5)]).t);
  }

  /** At the end the tree is empty, although the keys 14 and 22 were put and never taken. */
  lemma LosesEntries()
    ensures Outcome(RUN) == Lost(Leaf) && Held(RUN) == {14, 22}
  {
    hide Outcome, Erased, Nodes, Held;
    Run3();
    OutcomeMore(RUN3, Take(7));
    Take7(Outcome(RUN3).t);
    OutcomeMore(RUN3 + [Take(7)], Take(8));
    Take8(Outcome(RUN3 + [Take(7)]).t);
    OutcomeMore(RUN3 + [Take(7)] + [Take(8)], Take(11));
    Take11(Outcome(RUN3 + [Take(7)] + [Take(8)]).t);
    HeldRun();
  }

  lemma HeldMore(ops: seq<Op>, op: Op)
    ensures Held(ops + [op]) == if op.Put? then Held(ops) + {op.key} else Held(ops) - {op.key}
  {
    assert (ops + [op])[..|ops|] == ops;
  }

  lemma HeldRun1()
    ensures Held(RUN1) == {3, 4, 11}
  {
    hide Held;
    HeldNone();
    HeldMore(NONE, Put(1));
    HeldMore(NONE + [Put(1)], Put(2));
    HeldMore(NONE + [Put(1)] + [Put(2)], Put(3));
    HeldMore(NONE + [Put(1)] + [Put(2)] + [Put(3)], Put(4));
    HeldMore(NONE + [Put(1)] + [Put(2)] + [Put(3)] + [Put(4)], Take(1));
    HeldMore(NONE + [Put(1)] + [Put(2)] + [Put(3)] + [Put(4)] + [Take(1)], Put(11));
    HeldMore(NONE + [Put(1)] + [Put(2)] + [Put(3)] + [Put(4)] + [Take(1)] + [Put(11)], Take(2));
  }

  lemma HeldRun2()
    ensures Held(RUN2) == {3, 4, 11, 22, 5, 6, 7, 8}
  {
    hide Held;
    HeldRun1();
    HeldMore(RUN1, Put(22));
    HeldMore(RUN1 + [Put(22)], Put(5));
    HeldMore(RUN1 + [Put(22)] + [Put(5)], Put(6));
    HeldMore(RUN1 + [Put(22)] + [Put(5)] + [Put(6)], Put(7));
    HeldMore(RUN1 + [Put(22)] + [Put(5)] + [Put(6)] + [Put(7)], Put(8));
  }

  lemma HeldRun3()
    ensures Held(RUN3) == {7, 8, 11, 14, 22}
  {
    hide Held;
    HeldRun2();
    HeldMore(RUN2, Take(3));
    HeldMore(RUN2 + [Take(3)], Take(4));
    HeldMore(RUN2 + [Take(3)] + [Take(4)], Put(14));
    HeldMore(RUN2 + [Take(3)] + [Take(4)] + [Put(14)], Take(5));
    HeldMore(RUN2 + [Take(3)] + [Take(4)] + [Put(14)] + [Take(5)], Take(6));
  }

  lemma HeldRun()
    ensures Held(RUN) == {14, 22}
  {
    hide Held;
    HeldRun3();
    HeldMore(RUN3, Take(7));
    HeldMore(RUN3 + [Take(7)], Take(8));
    HeldMore(RUN3 + [Take(7)] + [Take(8)], Take(11));
  }

  lemma HeldNone()
    ensures Held(NONE) == {}
  {
  }
}
