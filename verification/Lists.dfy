/**
 Lists without duplicates.
 */
module Lists {

  ghost predicate NoDuplicates<T>(l: seq<T>) {
    forall i, j :: 0 <= i < j < |l| ==> l[i] != l[j]
  }

  /** A list without the element `b`. */
  function Remove<T(==)>(l: seq<T>, b: T): seq<T> {
    if l == [] then [] else if l[0] == b then l[1..] else [l[0]] + Remove(l[1..], b)
  }

  /** Where the element was, as seen from the front. */
  lemma {:induction false} RemoveAt<T>(l: seq<T>, k: int)
    requires NoDuplicates(l) && 0 <= k < |l|
    ensures Remove(l, l[k]) == l[..k] + l[k + 1..]
  {
    if k > 0 {
      RemoveAt(l[1..], k - 1);
      assert l[1..][..k - 1] == l[1..k] && l[1..][k..] == l[k + 1..];
    }
  }

  /** Removing an element of a list without duplicates takes out that element and keeps the rest. */
  lemma RemoveOne<T>(l: seq<T>, b: T)
    requires NoDuplicates(l) && b in l
    ensures NoDuplicates(Remove(l, b)) && |Remove(l, b)| == |l| - 1
    ensures forall i :: i in Remove(l, b) <==> i in l && i != b
  {
    hide Remove;
    var k :| 0 <= k < |l| && l[k] == b;
    RemoveAt(l, k);
    var r := Remove(l, b);
    assert forall j :: 0 <= j < |r| ==> r[j] == l[if j < k then j else j + 1];
    assert forall j :: 0 <= j < |l| && j != k ==> l[j] == r[if j < k then j else j - 1];
  }

  /** Inserting a new element anywhere keeps a list free of duplicates. */
  lemma InsertOne<T>(l: seq<T>, k: int, x: T)
    requires NoDuplicates(l) && 0 <= k <= |l| && x !in l
    ensures NoDuplicates(l[..k] + [x] + l[k..])
    ensures forall i :: i in l[..k] + [x] + l[k..] <==> i in l || i == x
  {
  }
}
