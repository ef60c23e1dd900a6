/**
 Integer logarithm and square root on 32-bit words. Every intermediate value is a word, so none of the
 operations can overflow.
 */
module IntegerMath {
  import opened Frames

  newtype Word = x: int | 0 <= x < 0x1_0000_0000

  newtype Half = x: int | 0 <= x < 0x1_0000

  /** The first sixteen entries of the table, and the entry that fills each later row of sixteen. */
  const FIRST: seq<Word> := [255, 0, 1, 1, 2, 2, 2, 2, 3, 3, 3, 3, 3, 3, 3, 3]
  const ROWS: seq<Word> := [0, 4, 5, 5, 6, 6, 6, 6, 7, 7, 7, 7, 7, 7, 7, 7]

  function LgTable(i: Word): (r: Word)
    requires i < 256
    ensures i > 0 ==> r < 8
  {
    if i < 16 then FIRST[i] else ROWS[i / 16]
  }

  /** `r` is the binary logarithm of `v`. */
  ghost predicate IsLog(v: int, r: int) {
    0 <= r && Pow2(r) <= v < Pow2(r + 1)
  }

  lemma Powers()
    ensures Pow2(0) == 1 && Pow2(1) == 2 && Pow2(2) == 4 && Pow2(3) == 8 && Pow2(4) == 16
    ensures Pow2(5) == 32 && Pow2(6) == 64 && Pow2(7) == 128 && Pow2(8) == 256
  {
  }

  lemma TableIsLog(i: Word)
    requires 0 < i < 256
    ensures IsLog(i as int, LgTable(i) as int)
  {
    Powers();
  }

  lemma {:induction false} PowAdds(a: nat, b: nat)
    ensures Pow2(a + b) == Pow2(a) * Pow2(b)
    decreases a
  {
    if a > 0 {
      PowAdds(a - 1, b);
    }
  }

  /** The logarithm of the upper part, moved up. */
  lemma ShiftedLog(v: int, k: nat, r: nat)
    requires 0 <= v && IsLog(v / Pow2(k), r)
    ensures IsLog(v, k + r)
  {
    hide Pow2;
    var m, q := Pow2(k), v / Pow2(k);
    PowAdds(k, r);
    PowAdds(k, r + 1);
    Divided(v, m);
    Scaled(m, Pow2(r), q, Pow2(r + 1));
  }

  lemma Divided(v: nat, m: nat)
    requires m > 0
    ensures m * (v / m) <= v < m * (v / m) + m
  {
  }

  lemma Scaled(m: nat, a: nat, q: nat, b: nat)
    requires a <= q < b
    ensures m * a <= m * q && m * q + m <= m * b
  {
    assert m * q + m == m * (q + 1);
    Times(m, a, q);
    Times(m, q + 1, b);
  }

  lemma Times(m: nat, a: nat, b: nat)
    requires a <= b
    ensures m * a <= m * b
  {
  }

  method Ilg16(v: Half) returns (r: Word)
    ensures if v == 0 then r == 255 else IsLog(v as int, r as int)
  {
    Powers();
    var x := v / 256;
    if x != 0 {
      TableIsLog(x as Word);
      r := 8 + LgTable(x as Word);
      ShiftedLog(v as int, 8, LgTable(x as Word) as int);
    } else {
      r := LgTable(v as Word);
      if v > 0 {
        TableIsLog(v as Word);
      }
    }
  }

  method Ilg32(v: Word) returns (r: Word)
    ensures if v == 0 then r == 255 else IsLog(v as int, r as int)
  {
    hide IsLog, LgTable;
    WidePowers();
    var y := v / 0x10000;
    if y != 0 {
      var x := y / 256;
      if x != 0 {
        TableIsLog(x);
        ShiftedLog(y as int, 8, LgTable(x) as int);
        ShiftedLog(v as int, 16, 8 + LgTable(x) as int);
        r := 24 + LgTable(x);
      } else {
        TableIsLog(y);
        ShiftedLog(v as int, 16, LgTable(y) as int);
        r := 16 + LgTable(y);
      }
    } else {
      var x := v / 256;
      if x != 0 {
        TableIsLog(x);
        ShiftedLog(v as int, 8, LgTable(x) as int);
        r := 8 + LgTable(x);
      } else {
        r := LgTable(v);
        TableStart(v);
      }
    }
  }

  lemma TableStart(v: Word)
    requires v < 256
    ensures if v == 0 then LgTable(v) == 255 else IsLog(v as int, LgTable(v) as int)
  {
    if v > 0 {
      TableIsLog(v);
    }
  }

  lemma WidePowers()
    ensures Pow2(8) == 256 && Pow2(16) == 0x10000
  {
  }

  // Square root

  /** Before a round with `one == p * p`: the root lies in `[s, s + 2p)`, the rest is `V - s * s` and `res` is `2 * s * p`. */
  ghost predicate Round(V: int, v: int, res: int, one: int, s: nat, p: nat) {
    one == p * p && res == 2 * (s * p) && v == V - s * s && 0 <= v && V < (s + 2 * p) * (s + 2 * p)
  }

  /** A round either keeps `s` or moves it up by `p`. */
  lemma RoundStep(V: int, v: int, res: int, one: int, s: nat, p: nat)
    requires Round(V, v, res, one, s, p)
    ensures v >= res + one ==>
      v - (res + one) == V - (s + p) * (s + p) && res + 2 * one == 2 * ((s + p) * p)
      && V < (s + p + p) * (s + p + p)
    ensures v < res + one ==> V < (s + p) * (s + p)
  {
  }

  lemma Square(s: int, p: int)
    ensures (s + p) * (s + p) == s * s + 2 * (s * p) + p * p
  {
  }

  /** `isqrt`: the root is exact, rounded down. */
  method Isqrt(w: Word) returns (r: Word)
    ensures r as int * r as int <= w as int < (r as int + 1) * (r as int + 1)
  {
    var one, k := StartPower(w);
    if one == 0 {
      return 0;
    }
    r := Rounds(w, one, k);
  }

  /** The first loop: the highest power of four that is not above `v`, or 0. */
  method StartPower(v: Word) returns (one: Word, ghost k: nat)
    ensures one == 0 <==> v == 0
    ensures one != 0 ==> k <= 15 && one as int == Pow2(k) * Pow2(k) && one <= v && v as int < 4 * one as int
  {
    one, k := 0x4000_0000, 15;
    assert Pow2(15) == 0x8000 by { Powers(); PowAdds(8, 7); }
    while one > v
      invariant one == 0 ==> v == 0
      invariant one != 0 ==> k <= 15 && one as int == Pow2(k) * Pow2(k) && v as int < 4 * one as int
      decreases one
    {
      if k > 0 {
        Quarter(k);
        k := k - 1;
      }
      one := one / 4;
    }
  }

  lemma Quarter(k: nat)
    requires k > 0
    ensures Pow2(k) * Pow2(k) == 4 * (Pow2(k - 1) * Pow2(k - 1))
  {
  }

  /** The products of a round stay below 2^32. */
  lemma RoundFits(s: nat, p: nat)
    requires s + 2 * p <= 0x1_0000 && p <= 0x8000
    ensures 2 * (s * p) + p * p <= 0xffff_ffff && 2 * ((s + p) * p) <= 0x8000_0000 && p * p <= 0x4000_0000
  {
    Square(s, p);
    Times(s + p, p, 0x1_0000 - (s + p));
    Product(s + p, 0x1_0000 - (s + p));
    Product(p, 0x1_0000 - p);
    Times(p, p, 0x1_0000 - p);
    assert (s + p) * (s + p) + (s + p) * (0x1_0000 - (s + p)) == (s + p) * 0x1_0000;
    Times(p, p, 0x8000);
  }

  lemma Product(a: nat, b: nat)
    requires a + b == 0x1_0000
    ensures a * b <= 0x4000_0000
  {
  }

  /** Halving `p` doubles nothing but the precision. */
  lemma Halved(s: nat, k: nat)
    requires k > 0
    ensures 2 * (s * Pow2(k)) / 2 == 2 * (s * Pow2(k - 1)) && Pow2(k) == 2 * Pow2(k - 1)
  {
  }

  /** The invariant of the second loop: a round to come, or the root found. */
  ghost predicate Rooting(V: int, v: int, res: int, one: int, s: nat, k: nat) {
    if one == 0 then res == s && s * s <= V < (s + 1) * (s + 1)
    else k <= 15 && Pow2(k) <= 0x8000 && Round(V, v, res, one, s, Pow2(k)) && s + 2 * Pow2(k) <= 0x1_0000
  }

  /** One round keeps the invariant. */
  lemma RootingStep(V: int, v: int, res: int, one: int, s: nat, k: nat)
    requires one != 0 && Rooting(V, v, res, one, s, k)
    ensures var up := v >= res + one;
      var s' := if up then s + Pow2(k) else s;
      Rooting(V, if up then v - (res + one) else v, (if up then res + 2 * one else res) / 2, one / 4, s', if k > 0 then k - 1 else 0)
  {
    hide Pow2;
    RoundStep(V, v, res, one, s, Pow2(k));
    if v >= res + one {
      Narrowed(V, v - (res + one), res + 2 * one, one, s + Pow2(k), k);
    } else {
      Narrowed(V, v, res, one, s, k);
    }
  }

  /** The root lies in `[s, s + p)`; the next round looks at half of `p`. */
  lemma Narrowed(V: int, v: int, res: int, one: int, s: nat, k: nat)
    requires k <= 15 && Pow2(k) <= 0x8000 && s + Pow2(k) <= 0x1_0000 && one == Pow2(k) * Pow2(k)
    requires res == 2 * (s * Pow2(k)) && v == V - s * s && 0 <= v && V < (s + Pow2(k)) * (s + Pow2(k))
    ensures Rooting(V, v, res / 2, one / 4, s, if k > 0 then k - 1 else 0)
  {
    hide Pow2, Round;
    if k == 0 {
      PowZero();
    } else {
      Halved(s, k);
      Quarter(k);
      Narrower(V, v, s, Pow2(k - 1));
      assert res / 2 == 2 * (s * Pow2(k - 1)) && one / 4 == Pow2(k - 1) * Pow2(k - 1);
    }
  }

  lemma PowZero()
    ensures Pow2(0) == 1
  {
  }

  lemma Narrower(V: int, v: int, s: nat, p: nat)
    requires 0 < p <= 0x4000 && s + 2 * p <= 0x1_0000 && v == V - s * s && 0 <= v && V < (s + 2 * p) * (s + 2 * p)
    ensures p * p > 0 && Round(V, v, 2 * (s * p), p * p, s, p)
  {
  }

  /** The second loop. */
  method Rounds(w: Word, start: Word, ghost k0: nat) returns (res: Word)
    requires start != 0 && k0 <= 15 && start as int == Pow2(k0) * Pow2(k0) && start <= w && w as int < 4 * start as int
    ensures res as int * res as int <= w as int < (res as int + 1) * (res as int + 1)
  {
    hide Pow2;
    ghost var V: int, s: nat, k: nat := w as int, 0, k0;
    var v, one := w, start;
    res := 0;
    StartsRooting(V, start as int, k0);
    while one != 0
      invariant Rooting(V, v as int, res as int, one as int, s, k)
      decreases one
    {
      RoundFits(s, Pow2(k));
      RootingStep(V, v as int, res as int, one as int, s, k);
      if v >= res + one {
        s := s + Pow2(k);
        RoundNext(V, v as int, res as int, one as int, s, Pow2(k));
        v := v - (res + one);
        res := res + 2 * one;
      }
      res := res / 2;
      one := one / 4;
      k := if k > 0 then k - 1 else 0;
    }
  }

  lemma RoundNext(V: int, v: int, res: int, one: int, t: int, p: nat)
    requires p <= t && Round(V, v, res, one, t - p, p)
    ensures res + 2 * one == 2 * (t * p)
  {
  }

  lemma StartsRooting(V: int, one: int, k: nat)
    requires k <= 15 && one == Pow2(k) * Pow2(k) && 0 < one <= V < 4 * one
    ensures Rooting(V, V, 0, one, 0, k)
  {
    hide Pow2;
    AtMost(k);
    var p := Pow2(k);
    assert (2 * p) * (2 * p) == 4 * (p * p);
  }

  lemma AtMost(k: nat)
    requires k <= 15
    ensures Pow2(k) <= 0x8000
  {
    hide Pow2;
    PowAdds(k, 15 - k);
    assert Pow2(15) == 0x8000 by { Powers(); PowAdds(8, 7); }
    Times(Pow2(k), 1, Pow2(15 - k));
  }
}
