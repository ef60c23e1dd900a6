/**
 The circular doubly linked lists of the heap, the frame allocator and the wait queues, which link their
 nodes with the same pointer assignments.
 */
module Rings {
  import opened Lists

  type Links = map<int, int>

  /** `y` comes right after `x`, seen from both. */
  ghost predicate Follows(next: Links, prev: Links, x: int, y: int) {
    x in next && next[x] == y && y in prev && prev[y] == x
  }

  /** The links lead from `x` through `s`, in order. */
  ghost predicate Chain(next: Links, prev: Links, x: int, s: seq<int>)
    decreases |s|
  {
    s != [] ==> Follows(next, prev, x, s[0]) && Chain(next, prev, s[0], s[1..])
  }

  function Last(x: int, s: seq<int>): int {
    if s == [] then x else s[|s| - 1]
  }

  /** The links form a ring: from the sentinel through the members and back. */
  ghost predicate Ringed(next: Links, prev: Links, nil: int, s: seq<int>) {
    nil !in s && NoDuplicates(s) && Chain(next, prev, nil, s + [nil])
  }

  lemma {:induction false} ChainSplit(next: Links, prev: Links, x: int, s: seq<int>, u: seq<int>)
    ensures Chain(next, prev, x, s + u) <==> Chain(next, prev, x, s) && Chain(next, prev, Last(x, s), u)
    decreases |s|
  {
    if s == [] {
      assert s + u == u;
    } else {
      ChainSplit(next, prev, s[0], s[1..], u);
      assert (s + u)[1..] == s[1..] + u;
    }
  }

  lemma {:induction false} ChainFrame(next: Links, prev: Links, next': Links, prev': Links, x: int, s: seq<int>)
    requires Chain(next, prev, x, s)
    requires s != [] ==> x in next' && x in next && next'[x] == next[x]
    requires forall k :: 0 <= k < |s| - 1 ==> s[k] in next && s[k] in next' && next'[s[k]] == next[s[k]]
    requires forall k :: 0 <= k < |s| ==> s[k] in prev && s[k] in prev' && prev'[s[k]] == prev[s[k]]
    ensures Chain(next', prev', x, s)
    decreases |s|
  {
    if s != [] {
      ChainFrame(next, prev, next', prev', s[0], s[1..]);
    }
  }

  lemma {:induction false} ChainIn(next: Links, prev: Links, x: int, s: seq<int>)
    requires Chain(next, prev, x, s)
    ensures s != [] ==> x in next
    ensures forall k :: 0 <= k < |s| - 1 ==> s[k] in next
    ensures forall k :: 0 <= k < |s| ==> s[k] in prev
    decreases |s|
  {
    if s != [] {
      ChainIn(next, prev, s[0], s[1..]);
    }
  }

  class Ring {
    var next: Links
    var prev: Links
    const nil: int
    /** The members in order. */
    ghost var members: seq<int>

    ghost predicate Valid()
      reads this
    {
      Ringed(next, prev, nil, members)
    }

    constructor (nil: int)
      ensures Valid() && members == [] && this.nil == nil
    {
      this.nil := nil;
      next, prev, members := map[nil := nil], map[nil := nil], [];
      assert [] + [nil] == [nil];
    }

    /** `insert`: links `x` after the node `p` at position `k`, counting the sentinel as position 0. */
    method InsertAfter(p: int, x: int, ghost k: int)
      requires Valid() && 0 <= k <= |members| && p == Last(nil, members[..k]) && x != nil && x !in members
      modifies this
      ensures Valid() && members == old(members)[..k] + [x] + old(members)[k..]
    {
      ghost var s := members;
      PositionLinks(next, prev, nil, s, k);
      prev := prev[next[p] := x];
      prev := prev[x := p];
      next := next[x := next[p]];
      next := next[p := x];
      members := s[..k] + [x] + s[k..];
      InsertedRing(old(next), old(prev), nil, s, k, x);
    }

    /** `remove`: unlinks the member `x`. */
    method Remove(x: int, ghost k: int)
      requires Valid() && 0 <= k < |members| && members[k] == x
      modifies this
      ensures Valid() && members == Lists.Remove(old(members), x)
    {
      ghost var s := members;
      PositionLinks(next, prev, nil, s, k);
      PositionLinks(next, prev, nil, s, k + 1);
      assert Last(nil, s[..k + 1]) == x;
      next := next[prev[x] := next[x]];
      prev := prev[next[x] := prev[x]];
      members := s[..k] + s[k + 1..];
      RemoveAt(s, k);
      RemovedRing(old(next), old(prev), nil, s, k);
    }
  }

  /** The node after position `k`. */
  function After(nil: int, s: seq<int>, k: int): int
    requires 0 <= k <= |s|
  {
    if k == |s| then nil else s[k]
  }

  /** The ring cut open after position `k`. */
  lemma PositionLinks(next: Links, prev: Links, nil: int, s: seq<int>, k: int)
    requires Ringed(next, prev, nil, s) && 0 <= k <= |s|
    ensures var p := Last(nil, s[..k]); var q := After(nil, s, k);
      && Follows(next, prev, p, q) && Chain(next, prev, nil, s[..k]) && Chain(next, prev, q, (s + [nil])[k + 1..])
  {
    var rest := (s + [nil])[k..];
    assert s + [nil] == s[..k] + rest;
    ChainSplit(next, prev, nil, s[..k], rest);
    assert rest[0] == After(nil, s, k) && rest[1..] == (s + [nil])[k + 1..];
  }

  lemma InsertedRing(next: Links, prev: Links, nil: int, s: seq<int>, k: int, x: int)
    requires Ringed(next, prev, nil, s) && 0 <= k <= |s| && x != nil && x !in s
    ensures var p := Last(nil, s[..k]); var q := After(nil, s, k);
      Ringed(next[x := q][p := x], prev[q := x][x := p], nil, s[..k] + [x] + s[k..])
  {
    var p, q, rest := Last(nil, s[..k]), After(nil, s, k), (s + [nil])[k + 1..];
    var n', p' := next[x := q][p := x], prev[q := x][x := p];
    PositionLinks(next, prev, nil, s, k);
    SidesKept(next, prev, n', p', nil, s, k, k);
    InsertOne(s, k, x);
    hide NoDuplicates;
    var tail := [x] + ([q] + rest);
    assert (s[..k] + [x] + s[k..]) + [nil] == s[..k] + tail by { assert (s + [nil])[k..] == [q] + rest; }
    ChainSplit(n', p', nil, s[..k], tail);
    ChainPush(n', p', p, x, [q] + rest);
    ChainPush(n', p', x, q, rest);
  }

  lemma RemovedRing(next: Links, prev: Links, nil: int, s: seq<int>, k: int)
    requires Ringed(next, prev, nil, s) && 0 <= k < |s|
    ensures var p := Last(nil, s[..k]); var q := After(nil, s, k + 1);
      Ringed(next[p := q], prev[q := p], nil, s[..k] + s[k + 1..])
  {
    var p, q, rest := Last(nil, s[..k]), After(nil, s, k + 1), (s + [nil])[k + 2..];
    var n', p' := next[p := q], prev[q := p];
    PositionLinks(next, prev, nil, s, k);
    PositionLinks(next, prev, nil, s, k + 1);
    SidesKept(next, prev, n', p', nil, s, k, k + 1);
    RemoveAt(s, k);
    RemoveOne(s, s[k]);
    hide NoDuplicates;
    assert (s[..k] + s[k + 1..]) + [nil] == s[..k] + ([q] + rest) by { assert (s + [nil])[k + 1..] == [q] + rest; }
    ChainSplit(n', p', nil, s[..k], [q] + rest);
    ChainPush(n', p', p, q, rest);
  }

  lemma ChainPush(next: Links, prev: Links, x: int, y: int, s: seq<int>)
    requires Follows(next, prev, x, y) && Chain(next, prev, y, s)
    ensures Chain(next, prev, x, [y] + s)
  {
  }

  /** Rewriting the links between positions `k` and `j` leaves both sides of the ring alone. */
  lemma SidesKept(next: Links, prev: Links, n': Links, p': Links, nil: int, s: seq<int>, k: int, j: int)
    requires Ringed(next, prev, nil, s) && 0 <= k <= j <= |s|
    requires forall y :: y in next && y != Last(nil, s[..k]) && (y == nil || y in s) ==> y in n' && n'[y] == next[y]
    requires forall y :: y in prev && y != After(nil, s, j) && (y == nil || y in s) ==> y in p' && p'[y] == prev[y]
    ensures Chain(n', p', nil, s[..k]) && Chain(n', p', After(nil, s, j), (s + [nil])[j + 1..])
  {
    var a, q, rest := s[..k], After(nil, s, j), (s + [nil])[j + 1..];
    PositionLinks(next, prev, nil, s, k);
    PositionLinks(next, prev, nil, s, j);
    ChainIn(next, prev, nil, a);
    ChainIn(next, prev, q, rest);
    hide Chain;
    forall i | 0 <= i < |a| ensures a[i] == s[i] && a[i] in s && a[i] != q && (i < |a| - 1 ==> a[i] != Last(nil, a)) {
    }
    assert a != [] ==> Last(nil, a) in s;
    ChainFrame(next, prev, n', p', nil, a);
    if j < |s| {
      forall i | 0 <= i < |rest| ensures rest[i] == if i + j + 1 < |s| then s[i + j + 1] else nil {
      }
      assert s[j] != Last(nil, a) && s[j] in s;
      forall i | 0 <= i < |rest| - 1 ensures rest[i] in s && rest[i] != Last(nil, a) && rest[i] != q {
      }
      ChainFrame(next, prev, n', p', q, rest);
    } else {
      ChainFrame(next, prev, n', p', q, []);
    }
  }
}
