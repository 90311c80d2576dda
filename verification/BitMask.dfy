/** The iterable bit mask of the host tables, for every width. A mask word is a natural number below 2^width; each
    operation is given as the code computes it and tied to the set of bit positions it stands for. */
module BitMask {
  import opened Arith

  function Pow2(n: nat): (r: nat)
    ensures r >= 1
  {
    if n == 0 then 1 else 2 * Pow2(n - 1)
  }

  predicate Bit(x: nat, i: nat) {
    if i == 0 then x % 2 == 1 else Bit(x / 2, i - 1)
  }

  function And(x: nat, y: nat): (r: nat) {
    if x == 0 then 0 else 2 * And(x / 2, y / 2) + (if x % 2 == 1 && y % 2 == 1 then 1 else 0)
  }

  function Or(x: nat, y: nat): (r: nat) {
    if x == 0 then y else 2 * Or(x / 2, y / 2) + (if x % 2 == 1 || y % 2 == 1 then 1 else 0)
  }

  // ---------------------------------------------------------------------------------------------
  // The operations of generic_bitmask, for words of `w` bits.

  function Full(w: nat): (r: nat) {
    Pow2(w) - 1
  }

  function Invert(x: nat, w: nat): (r: nat)
    requires x < Pow2(w)
    ensures r < Pow2(w)
  {
    Pow2(w) - 1 - x
  }

  function Single(n: nat): (r: nat) {
    Pow2(n)
  }

  /** `invert(full() << n)`, the shift dropping what leaves the word. */
  function Partial(n: nat, w: nat): (r: nat)
    requires n < w
    ensures r < Pow2(w)
  {
    Invert(Full(w) * Pow2(n) % Pow2(w), w)
  }

  function Clip(x: nat, n: nat, w: nat): (r: nat) {
    if n < w then And(x, Partial(n, w)) else x
  }

  function Set(x: nat, n: nat): (r: nat) {
    Or(x, Single(n))
  }

  function Skip(x: nat): (r: nat)
    requires x > 0
  {
    And(x, x - 1)
  }

  /** `countr_zero`. */
  function Next(x: nat): (r: nat)
    requires x > 0
  {
    if x % 2 == 1 then 0 else 1 + Next(x / 2)
  }

  /** `popcount`. */
  function Count(x: nat): (r: nat) {
    if x == 0 then 0 else x % 2 + Count(x / 2)
  }

  // ---------------------------------------------------------------------------------------------
  // The set of positions a word stands for.

  lemma {:induction false} BitBelow(x: nat, i: nat)
    requires Bit(x, i)
    ensures i < x
  {
    if i > 0 { BitBelow(x / 2, i - 1); }
  }

  ghost function Bits(x: nat): set<nat> {
    set i: nat | i < x && Bit(x, i)
  }

  lemma InBits(x: nat, i: nat)
    ensures i in Bits(x) <==> Bit(x, i)
  {
    if Bit(x, i) { BitBelow(x, i); }
  }

  lemma {:induction false} BitWidth(x: nat, w: nat, i: nat)
    requires x < Pow2(w) && Bit(x, i)
    ensures i < w
  {
    if w == 0 {
      BitZero(i);
    } else if i > 0 {
      BitWidth(x / 2, w - 1, i - 1);
    }
  }

  /** Words are determined by their positions. */
  lemma {:induction false} BitsExtensional(x: nat, y: nat)
    requires forall i: nat :: Bit(x, i) <==> Bit(y, i)
    ensures x == y
    decreases x + y
  {
    assert Bit(x, 0) <==> Bit(y, 0);
    if x + y > 0 {
      forall i: nat ensures Bit(x / 2, i) <==> Bit(y / 2, i) {
        assert Bit(x, i + 1) <==> Bit(y, i + 1);
      }
      if x / 2 + y / 2 < x + y { BitsExtensional(x / 2, y / 2); }
    }
  }

  lemma {:induction false} BitAnd(x: nat, y: nat, i: nat)
    ensures Bit(And(x, y), i) <==> Bit(x, i) && Bit(y, i)
  {
    if x == 0 {
      BitZero(i);
    } else if i > 0 {
      BitAnd(x / 2, y / 2, i - 1);
    }
  }

  lemma {:induction false} BitOr(x: nat, y: nat, i: nat)
    ensures Bit(Or(x, y), i) <==> Bit(x, i) || Bit(y, i)
  {
    if x == 0 {
      BitZero(i);
    } else if i > 0 {
      BitOr(x / 2, y / 2, i - 1);
    }
  }

  lemma {:induction false} BitZero(i: nat)
    ensures !Bit(0, i)
  {
    if i > 0 { BitZero(i - 1); }
  }

  lemma {:induction false} BitPow2(n: nat, i: nat)
    ensures Bit(Pow2(n), i) <==> i == n
  {
    if n == 0 {
      if i > 0 { BitZero(i - 1); }
    } else if i > 0 {
      BitPow2(n - 1, i - 1);
    }
  }

  /** 2^n - 1 has exactly the positions below n. */
  lemma {:induction false} BitOnes(n: nat, i: nat)
    ensures Bit(Pow2(n) - 1, i) <==> i < n
  {
    if n == 0 {
      BitZero(i);
    } else if i > 0 {
      assert (Pow2(n) - 1) / 2 == Pow2(n - 1) - 1;
      BitOnes(n - 1, i - 1);
    }
  }

  lemma HalfInvert(p: nat, x: nat)
    requires x < 2 * p
    ensures (2 * p - 1 - x) / 2 == p - 1 - x / 2 && (2 * p - 1 - x) % 2 == 1 - x % 2
  {
  }

  lemma {:induction false} BitInvert(x: nat, w: nat, i: nat)
    requires x < Pow2(w)
    ensures Bit(Invert(x, w), i) <==> i < w && !Bit(x, i)
  {
    if w == 0 {
      BitZero(i);
    } else {
      HalfInvert(Pow2(w - 1), x);
      if i > 0 { BitInvert(x / 2, w - 1, i - 1); }
    }
  }

  lemma {:induction false} Pow2Add(m: nat, n: nat)
    ensures Pow2(m + n) == Pow2(m) * Pow2(n)
  {
    if m > 0 {
      Pow2Add(m - 1, n);
      assert Pow2(m + n) == 2 * Pow2(m - 1 + n);
      assert 2 * (Pow2(m - 1) * Pow2(n)) == (2 * Pow2(m - 1)) * Pow2(n);
    }
  }

  lemma ShiftedOnes(p: nat, q: nat, r: nat)
    requires p == r * q && r >= 1 && q >= 1
    ensures (p - 1) * q % p == p - q
  {
    MulMono(1, r, q);
    assert (p - 1) * q == p * q - q && (q - 1) * p == p * q - p;
    ModUnique((p - 1) * q, p, q - 1, p - q);
  }

  /** `partial(n)` is 2^n - 1. */
  lemma PartialIs(n: nat, w: nat)
    requires n < w
    ensures Partial(n, w) == Pow2(n) - 1
  {
    Pow2Add(w - n, n);
    ShiftedOnes(Pow2(w), Pow2(n), Pow2(w - n));
  }

  // ---------------------------------------------------------------------------------------------
  // Each operation as an operation on sets.

  lemma InvertBits(x: nat, w: nat)
    requires x < Pow2(w)
    ensures forall i: nat :: i in Bits(Invert(x, w)) <==> i < w && i !in Bits(x)
  {
    forall i: nat ensures i in Bits(Invert(x, w)) <==> i < w && i !in Bits(x) {
      InBits(Invert(x, w), i);
      InBits(x, i);
      BitInvert(x, w, i);
    }
  }

  lemma OrBits(x: nat, y: nat)
    ensures Bits(Or(x, y)) == Bits(x) + Bits(y)
  {
    forall i: nat ensures i in Bits(Or(x, y)) <==> i in Bits(x) + Bits(y) {
      InBits(Or(x, y), i);
      InBits(x, i);
      InBits(y, i);
      BitOr(x, y, i);
    }
  }

  lemma SetBits(x: nat, n: nat)
    ensures Bits(Set(x, n)) == Bits(x) + {n}
  {
    OrBits(x, Single(n));
    forall i: nat ensures i in Bits(Single(n)) <==> i == n {
      InBits(Pow2(n), i);
      BitPow2(n, i);
    }
  }

  /** Clipping keeps the positions below `n`. */
  lemma ClipBits(x: nat, n: nat, w: nat)
    requires x < Pow2(w)
    ensures Bits(Clip(x, n, w)) == set i | i in Bits(x) && i < n
  {
    forall i: nat ensures i in Bits(Clip(x, n, w)) <==> i in Bits(x) && i < n {
      InBits(Clip(x, n, w), i);
      InBits(x, i);
      if n < w {
        PartialIs(n, w);
        BitAnd(x, Partial(n, w), i);
        BitOnes(n, i);
      } else if Bit(x, i) {
        BitWidth(x, w, i);
      }
    }
  }

  /** `next` is the lowest position. */
  lemma {:induction false} NextIsLowest(x: nat, i: nat)
    requires x > 0
    ensures Bit(x, Next(x))
    ensures Bit(x, i) ==> Next(x) <= i
  {
    if x % 2 == 0 { NextIsLowest(x / 2, if i == 0 then 0 else i - 1); }
  }

  lemma {:induction false} AndSelf(x: nat)
    ensures And(x, x) == x
  {
    if x > 0 { AndSelf(x / 2); }
  }

  /** `x & (x - 1)` drops exactly the lowest position. */
  lemma {:induction false} SkipBit(x: nat, i: nat)
    requires x > 0
    ensures Bit(Skip(x), i) <==> Bit(x, i) && i != Next(x)
  {
    if x % 2 == 1 {
      assert (x - 1) / 2 == x / 2;
      AndSelf(x / 2);
      assert Skip(x) == 2 * (x / 2);
    } else {
      assert (x - 1) / 2 == x / 2 - 1;
      assert Skip(x) == 2 * Skip(x / 2);
      if i > 0 { SkipBit(x / 2, i - 1); }
    }
  }

  /** The iteration step: a non-zero word has a lowest position, and skipping removes just that one. */
  lemma SkipBits(x: nat)
    requires x > 0
    ensures Next(x) in Bits(x) && forall i :: i in Bits(x) ==> Next(x) <= i
    ensures Bits(Skip(x)) == Bits(x) - {Next(x)}
  {
    forall i: nat ensures i in Bits(Skip(x)) <==> i in Bits(x) - {Next(x)} {
      InBits(Skip(x), i);
      InBits(x, i);
      SkipBit(x, i);
    }
    NextIsLowest(x, 0);
    InBits(x, Next(x));
    forall i | i in Bits(x) ensures Next(x) <= i { NextIsLowest(x, i); }
  }

  lemma ZeroBits(x: nat)
    ensures x == 0 <==> Bits(x) == {}
  {
    if x > 0 { SkipBits(x); }
  }

  /** `popcount` is the number of positions. */
  lemma {:induction false} CountBits(x: nat)
    ensures Count(x) == |Bits(x)|
  {
    if x > 0 {
      CountSkip(x);
      SkipBits(x);
      SkipLess(x);
      CountBits(Skip(x));
    }
  }

  lemma {:induction false} CountSkip(x: nat)
    requires x > 0
    ensures Count(x) == Count(Skip(x)) + 1
  {
    if x % 2 == 1 {
      SkipOdd(x / 2);
      CountDouble(x / 2);
      assert x == 2 * (x / 2) + 1;
    } else {
      var y := x / 2;
      assert x == 2 * y;
      SkipEven(y);
      CountDouble(y);
      CountDouble(Skip(y));
      CountSkip(y);
    }
  }

  lemma CountDouble(y: nat)
    ensures Count(2 * y) == Count(y)
    ensures Count(2 * y + 1) == Count(y) + 1
  {
    assert 2 * y / 2 == y && (2 * y + 1) / 2 == y;
  }

  lemma SkipOdd(y: nat)
    ensures Skip(2 * y + 1) == 2 * y
  {
    assert (2 * y + 1) / 2 == y && 2 * y / 2 == y;
    AndSelf(y);
  }

  lemma SkipEven(y: nat)
    requires y > 0
    ensures Skip(2 * y) == 2 * Skip(y)
  {
    assert 2 * y / 2 == y && (2 * y - 1) / 2 == y - 1;
  }

  lemma {:induction false} SkipLess(x: nat)
    requires x > 0
    ensures Skip(x) < x
  {
    if x % 2 == 1 {
      assert (x - 1) / 2 == x / 2;
      AndSelf(x / 2);
    } else {
      assert (x - 1) / 2 == x / 2 - 1;
      SkipLess(x / 2);
    }
  }

  /** A word stays a word. */
  lemma {:induction false} SetWidth(x: nat, n: nat, w: nat)
    requires x < Pow2(w) && n < w
    ensures Set(x, n) < Pow2(w)
  {
    Pow2Less(n, w);
    OrWidth(x, Single(n), w);
  }

  lemma {:induction false} Pow2Less(n: nat, w: nat)
    requires n < w
    ensures Pow2(n) < Pow2(w)
  {
    if n > 0 { Pow2Less(n - 1, w - 1); }
  }

  lemma {:induction false} OrWidth(x: nat, y: nat, w: nat)
    requires x < Pow2(w) && y < Pow2(w)
    ensures Or(x, y) < Pow2(w)
  {
    if x > 0 { OrWidth(x / 2, y / 2, w - 1); }
  }

  lemma {:induction false} AndLess(x: nat, y: nat)
    ensures And(x, y) <= x
  {
    if x > 0 { AndLess(x / 2, y / 2); }
  }

  /** Masking with a power of two less one is the remainder, so a masked hash is a partition index. */
  lemma {:induction false} AndOnes(x: nat, n: nat)
    ensures And(x, Pow2(n) - 1) == x % Pow2(n) < Pow2(n)
  {
    if n == 0 {
      AndZero(x);
    } else {
      var p := Pow2(n - 1);
      AndOnes(x / 2, n - 1);
      assert (2 * p - 1) / 2 == p - 1 && (2 * p - 1) % 2 == 1;
      HalfMod(x, p);
    }
  }

  lemma HalfMod(x: nat, p: nat)
    requires p >= 1
    ensures x % (2 * p) == 2 * (x / 2 % p) + x % 2
  {
    var h := x / 2;
    var q, r := h / p, h % p;
    Arith.DivBound(h, p);
    assert x == q * (2 * p) + (2 * r + x % 2) by {
      assert x == 2 * h + x % 2;
      assert h == q * p + r;
      assert q * (2 * p) == 2 * (q * p);
    }
    Arith.ModUnique(x, 2 * p, q, 2 * r + x % 2);
  }

  lemma {:induction false} AndZero(x: nat)
    ensures And(x, 0) == 0
  {
    if x > 0 {
      AndZero(x / 2);
    }
  }
}
