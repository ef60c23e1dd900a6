/**
 Bitmaps in 32-bit words: setting, clearing and reading single bits, and the search for the first bit
 of a kind.
 */
module Bitmaps {
  import opened Options

  /** Bit `k` of a word. */
  predicate BitAt(w: bv32, k: bv5) {
    w & (1 << k) != 0
  }

  predicate Bit(w: bv32, k: nat) {
    k < 32 && BitAt(w, k as bv5)
  }

  /** The word with bit `k` set or cleared. */
  function WithBit(w: bv32, k: nat, x: bool): bv32
    requires k < 32
  {
    if x then On(w, k as bv5) else Off(w, k as bv5)
  }

  function On(w: bv32, k: bv5): bv32 {
    w | (1 << k)
  }

  function Off(w: bv32, k: bv5): bv32 {
    w & !(1 << k)
  }

  function Flip(w: bv32): bv32 {
    !w
  }

  lemma SetBit(w: bv32, k: bv5, j: bv5)
    ensures BitAt(w | (1 << k), j) <==> j == k || BitAt(w, j)
  {
  }

  lemma ClearBit(w: bv32, k: bv5, j: bv5)
    ensures BitAt(w & !(1 << k), j) <==> j != k && BitAt(w, j)
  {
  }

  lemma OnBit(w: bv32, k: bv5, j: bv5)
    ensures BitAt(On(w, k), j) <==> j == k || BitAt(w, j)
  {
    hide BitAt;
    SetBit(w, k, j);
  }

  lemma OffBit(w: bv32, k: bv5, j: bv5)
    ensures BitAt(Off(w, k), j) <==> j != k && BitAt(w, j)
  {
    hide BitAt;
    ClearBit(w, k, j);
  }

  lemma Injective(j: nat, k: nat)
    requires j < 32 && k < 32
    ensures j as bv5 == k as bv5 <==> j == k
  {
    Numbered(j);
    Numbered(k);
  }

  lemma Numbered(j: nat)
    requires j < 32
    ensures (j as bv5) as nat == j
  {
  }

  lemma WithBitIs(w: bv32, k: nat, x: bool, j: nat)
    requires k < 32 && j < 32
    ensures Bit(WithBit(w, k, x), j) <==> if j == k then x else Bit(w, j)
  {
    hide BitAt, On, Off;
    Injective(j, k);
    OnBit(w, k as bv5, j as bv5);
    OffBit(w, k as bv5, j as bv5);
  }

  /** Complementing a word complements its bits. */
  lemma FlipBit(w: bv32, j: nat)
    requires j < 32
    ensures Bit(Flip(w), j) <==> !Bit(w, j)
  {
    FlipBitAt(w, j as bv5);
  }

  lemma FlipBitAt(w: bv32, j: bv5)
    ensures BitAt(!w, j) <==> !BitAt(w, j)
  {
  }

  lemma NoBits(w: bv32)
    requires forall k: bv5 :: !BitAt(w, k)
    ensures w == 0
  {
    assert !BitAt(w, 0) && !BitAt(w, 1) && !BitAt(w, 2) && !BitAt(w, 3) && !BitAt(w, 4) && !BitAt(w, 5) && !BitAt(w, 6) && !BitAt(w, 7);
    assert !BitAt(w, 8) && !BitAt(w, 9) && !BitAt(w, 10) && !BitAt(w, 11) && !BitAt(w, 12) && !BitAt(w, 13) && !BitAt(w, 14) && !BitAt(w, 15);
    assert !BitAt(w, 16) && !BitAt(w, 17) && !BitAt(w, 18) && !BitAt(w, 19) && !BitAt(w, 20) && !BitAt(w, 21) && !BitAt(w, 22) && !BitAt(w, 23);
    assert !BitAt(w, 24) && !BitAt(w, 25) && !BitAt(w, 26) && !BitAt(w, 27) && !BitAt(w, 28) && !BitAt(w, 29) && !BitAt(w, 30) && !BitAt(w, 31);
  }

  lemma AllClear(w: bv32)
    requires forall k :: 0 <= k < 32 ==> !Bit(w, k)
    ensures w == 0
  {
    hide BitAt;
    forall k: bv5 ensures !BitAt(w, k) {
      assert !Bit(w, k as nat);
      assert (k as nat) as bv5 == k;
    }
    NoBits(w);
  }

  /** Bit `i` of the words. */
  predicate Has(xs: seq<bv32>, i: nat) {
    i / 32 < |xs| && Bit(xs[i / 32], i % 32)
  }

  /** Changing the word of `pos` as `set` does changes bit `pos` and no other. */
  lemma Updated(xs: seq<bv32>, pos: nat, x: bool, i: nat)
    requires pos / 32 < |xs| && i / 32 < |xs|
    ensures Has(xs[pos / 32 := WithBit(xs[pos / 32], pos % 32, x)], i) <==> if i == pos then x else Has(xs, i)
  {
    hide Bit, WithBit;
    WithBitIs(xs[pos / 32], pos % 32, x, i % 32);
  }

  /** The lowest set bit of a word (`bsf`). */
  method LowestBit(w: bv32) returns (r: nat)
    requires w != 0
    ensures r < 32 && Bit(w, r) && forall k :: 0 <= k < r ==> !Bit(w, k)
  {
    hide Bit;
    r := 0;
    while r < 32 && !Bit(w, r)
      invariant 0 <= r <= 32 && forall k :: 0 <= k < r ==> !Bit(w, k)
    {
      r := r + 1;
    }
    if r == 32 {
      AllClear(w);
    }
  }

  class Bitmap {
    var xs: array<bv32>
    const n: nat

    ghost predicate Valid()
      reads this
    {
      xs.Length == (n + 31) / 32
    }

    constructor (count: nat)
      ensures Valid() && n == count && fresh(xs) && forall i: nat :: i < n ==> !Has(xs[..], i)
    {
      n := count;
      xs := new bv32[(count + 31) / 32](_ => 0);
    }

    method Get(pos: nat) returns (x: bool)
      requires Valid() && pos < n
      ensures x <==> Has(xs[..], pos)
    {
      x := Bit(xs[pos / 32], pos % 32);
    }

    method Set(pos: nat, x: bool)
      requires Valid() && pos < n
      modifies xs
      ensures forall i: nat :: i / 32 < xs.Length ==> (Has(xs[..], i) <==> if i == pos then x else old(Has(xs[..], i)))
    {
      hide Bit, WithBit, Has;
      ghost var was := xs[..];
      xs[pos / 32] := WithBit(xs[pos / 32], pos % 32, x);
      assert xs[..] == was[pos / 32 := WithBit(was[pos / 32], pos % 32, x)];
      forall i: nat | i / 32 < xs.Length ensures Has(xs[..], i) <==> if i == pos then x else Has(was, i) {
        Updated(was, pos, x, i);
      }
    }

    /** The first set bit from word `start` on. */
    method FirstOne(start: nat) returns (r: Option<nat>)
      requires Valid()
      ensures r.None? ==> forall i: nat :: 32 * start <= i < n ==> !Has(xs[..], i)
      ensures r.Some? ==> 32 * start <= r.value < n && Has(xs[..], r.value)
      ensures r.Some? ==> forall i: nat :: 32 * start <= i < r.value ==> !Has(xs[..], i)
    {
      hide Bit, Flip, Has;
      var w := start;
      while w < xs.Length
        invariant start <= w && forall i: nat :: 32 * start <= i < 32 * w && i < n ==> !Has(xs[..], i)
        decreases xs.Length - w
      {
        if xs[w] != 0 {
          var j := LowestBit(xs[w]);
          InWord(xs[..], w, j);
          if 32 * w + j < n {
            return Some(32 * w + j);
          }
        } else {
          ZeroWord(xs[..], w);
        }
        w := w + 1;
      }
      r := None;
    }

    /** The first clear bit from word `start` on. */
    method FirstZero(start: nat) returns (r: Option<nat>)
      requires Valid()
      ensures r.None? ==> forall i: nat :: 32 * start <= i < n ==> Has(xs[..], i)
      ensures r.Some? ==> 32 * start <= r.value < n && !Has(xs[..], r.value)
      ensures r.Some? ==> forall i: nat :: 32 * start <= i < r.value ==> Has(xs[..], i)
    {
      hide Bit, Flip, Has;
      var w := start;
      while w < xs.Length
        invariant start <= w && forall i: nat :: 32 * start <= i < 32 * w && i < n ==> Has(xs[..], i)
        decreases xs.Length - w
      {
        if xs[w] != 0xFFFF_FFFF {
          NotAllOnes(xs[w]);
          var j := LowestBit(Flip(xs[w]));
          InFlipped(xs[..], w, j);
          if 32 * w + j < n {
            return Some(32 * w + j);
          }
        } else {
          OnesWord(xs[..], w);
        }
        w := w + 1;
      }
      r := None;
    }
  }

  lemma NotAllOnes(w: bv32)
    requires w != 0xFFFF_FFFF
    ensures Flip(w) != 0
  {
  }

  lemma InWord(xs: seq<bv32>, w: nat, j: nat)
    requires w < |xs| && j < 32 && Bit(xs[w], j) && forall k :: 0 <= k < j ==> !Bit(xs[w], k)
    ensures Has(xs, 32 * w + j) && forall i: nat :: 32 * w <= i < 32 * w + j ==> !Has(xs, i)
  {
    hide Bit;
    forall i: nat | 32 * w <= i < 32 * w + j ensures !Has(xs, i) {
      assert i / 32 == w && i % 32 == i - 32 * w;
    }
  }

  lemma InFlipped(xs: seq<bv32>, w: nat, j: nat)
    requires w < |xs| && j < 32 && Bit(Flip(xs[w]), j) && forall k :: 0 <= k < j ==> !Bit(Flip(xs[w]), k)
    ensures !Has(xs, 32 * w + j) && forall i: nat :: 32 * w <= i < 32 * w + j ==> Has(xs, i)
  {
    hide Bit, Flip;
    FlipBit(xs[w], j);
    forall i: nat | 32 * w <= i < 32 * w + j ensures Has(xs, i) {
      assert i / 32 == w && i % 32 == i - 32 * w;
      FlipBit(xs[w], i - 32 * w);
    }
  }

  lemma ZeroWord(xs: seq<bv32>, w: nat)
    requires w < |xs| && xs[w] == 0
    ensures forall i: nat :: 32 * w <= i < 32 * w + 32 ==> !Has(xs, i)
  {
  }

  lemma OnesWord(xs: seq<bv32>, w: nat)
    requires w < |xs| && xs[w] == 0xFFFF_FFFF
    ensures forall i: nat :: 32 * w <= i < 32 * w + 32 ==> Has(xs, i)
  {
  }

}
