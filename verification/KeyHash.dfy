/** Set index, tag and key reconstruction of the set-associative cache, for keys and tags of the same
    width. Keys and tags are signed; the code
    casts through the unsigned type of the same width, which is arithmetic modulo 2^bits. */
module KeyHash {
  import opened Arith

  const NUM_WAYS: nat := 8
  const TWO32: nat := 0x1_0000_0000

  /** `m` is 2^bits, the number of values of the key type: 2^32 or 2^64 in the code. Only its being
      even and at least the number of sets is used. */
  predicate Modulus(m: nat) {
    m >= 2 && m % 2 == 0
  }

  /** The range of the signed type. */
  predicate InRange(x: int, m: nat) {
    -(m / 2) <= x < m / 2
  }

  /** Cast to the unsigned type. */
  function Unsigned(x: int, m: nat): (r: nat)
    requires Modulus(m)
    ensures r < m
  {
    x % m
  }

  /** Cast of an unsigned value to the signed type (two's complement). */
  function Signed(u: nat, m: nat): (r: int)
    requires Modulus(m) && u < m
    ensures InRange(r, m)
  {
    if u < m / 2 then u else u - m
  }

  function SetIndex(key: int, numSets: nat, m: nat): (r: nat)
    requires numSets >= 1 && Modulus(m)
  {
    (Unsigned(key, m) % numSets) % TWO32
  }

  function TagOf(key: int, numSets: nat, m: nat): (r: int)
    requires numSets >= 1 && Modulus(m)
  {
    DivBound(Unsigned(key, m), numSets);
    Signed(Unsigned(key, m) / numSets, m)
  }

  function KeyOf(tag: int, set_: nat, numSets: nat, m: nat): (r: int)
    requires numSets >= 1 && Modulus(m)
  {
    Signed((Unsigned(tag, m) * numSets + set_) % m, m)
  }

  lemma CastRoundTrip(x: int, m: nat)
    requires Modulus(m) && InRange(x, m)
    ensures Signed(Unsigned(x, m), m) == x
  {
    if x >= 0 { ModUnique(x, m, 0, x); } else { ModUnique(x, m, -1, x + m); }
  }

  lemma SignedKeepsBits(u: nat, m: nat)
    requires Modulus(m) && u < m
    ensures Unsigned(Signed(u, m), m) == u
  {
    if u < m / 2 { ModUnique(u, m, 0, u); } else { ModUnique(u - m, m, -1, u); }
  }

  lemma SetBelow(key: int, numSets: nat, m: nat)
    requires Modulus(m) && 1 <= numSets <= TWO32
    ensures SetIndex(key, numSets, m) == Unsigned(key, m) % numSets < numSets
  {
    var r := Unsigned(key, m) % numSets;
    ModUnique(r, TWO32, 0, r);
  }

  /** Tag and set index are the quotient and the remainder of the unsigned key by the number of sets. */
  lemma SplitsKey(key: int, numSets: nat, m: nat, q: nat, r: nat)
    requires Modulus(m) && 1 <= numSets <= TWO32 && r < numSets
    ensures Unsigned(key, m) == q * numSets + r
            <==> q == Unsigned(TagOf(key, numSets, m), m) && r == SetIndex(key, numSets, m)
  {
    var u := Unsigned(key, m);
    SetBelow(key, numSets, m);
    DivBound(u, numSets);
    SignedKeepsBits(u / numSets, m);
    if u == q * numSets + r {
      ModUnique(u, numSets, q, r);
    }
  }

  /** Tag and set index determine the key, for every key, negative ones included. */
  lemma RoundTrip(key: int, numSets: nat, m: nat)
    requires Modulus(m) && InRange(key, m) && 1 <= numSets <= TWO32
    ensures KeyOf(TagOf(key, numSets, m), SetIndex(key, numSets, m), numSets, m) == key
    ensures SetIndex(key, numSets, m) < numSets
  {
    var u := Unsigned(key, m);
    CastRoundTrip(key, m);
    SetBelow(key, numSets, m);
    DivBound(u, numSets);
    SignedKeepsBits(u / numSets, m);
    ModUnique(u, m, 0, u);
  }

  /** Within one set, distinct keys have distinct tags. */
  lemma TagsDistinct(k1: int, k2: int, numSets: nat, m: nat)
    requires Modulus(m) && InRange(k1, m) && InRange(k2, m) && 1 <= numSets <= TWO32
    requires SetIndex(k1, numSets, m) == SetIndex(k2, numSets, m)
    ensures TagOf(k1, numSets, m) == TagOf(k2, numSets, m) <==> k1 == k2
  {
    RoundTrip(k1, numSets, m);
    RoundTrip(k2, numSets, m);
  }

  /** The key an empty slot of set `st` stands for when the sentinel is -1. */
  lemma SentinelKey(st: nat, numSets: nat, m: nat)
    requires Modulus(m) && st < numSets <= m
    ensures KeyOf(-1, st, numSets, m) == Signed(m - numSets + st, m)
  {
    ModUnique(-1, m, -1, m - 1);
    var w := (m - 1) * numSets + st;
    assert w == (numSets - 1) * m + (m - numSets + st) by {
      assert (m - 1) * numSets == m * numSets - numSets;
      assert (numSets - 1) * m == numSets * m - m;
    }
    ModUnique(w, m, numSets - 1, m - numSets + st);
  }

  /** `u` lies in the last block of `n` values below `m` at its own remainder iff `n` divides `m`. */
  lemma LastBlock(u: nat, n: nat, m: nat)
    requires 1 <= n <= m && u < m
    ensures u == m - n + u % n <==> m % n == 0 && u >= m - n
  {
    DivBound(u, n);
    DivBound(m, n);
    if u == m - n + u % n {
      var q := u / n + 1;
      assert q * n == u / n * n + n;
      ModUnique(m, n, q, 0);
    }
    if m % n == 0 && u >= m - n {
      var q := m / n - 1;
      assert q * n == m / n * n - n;
      ModUnique(u, n, q, u - (m - n));
    }
  }

  /** An empty slot of `key`'s set, marked with the default sentinel -1, is taken for `key` exactly when
      the number of sets divides 2^bits and `key` is one of the last `numSets` unsigned values. */
  lemma SentinelMatch(key: int, numSets: nat, m: nat)
    requires Modulus(m) && InRange(key, m) && 1 <= numSets <= TWO32 && numSets <= m
    ensures (KeyOf(-1, SetIndex(key, numSets, m), numSets, m) == key)
        <==> (m % numSets == 0 && Unsigned(key, m) >= m - numSets)
  {
    var u, st := Unsigned(key, m), SetIndex(key, numSets, m);
    SetBelow(key, numSets, m);
    SentinelKey(st, numSets, m);
    CastRoundTrip(key, m);
    SignedKeepsBits(m - numSets + st, m);
    LastBlock(u, numSets, m);
  }

  /** In particular a key whose unsigned value is below 2^bits - numSets never matches an empty slot. */
  lemma SmallKeysMissSentinel(key: int, numSets: nat, m: nat)
    requires Modulus(m) && InRange(key, m) && 1 <= numSets <= TWO32 && numSets <= m
    requires Unsigned(key, m) < m - numSets
    ensures KeyOf(-1, SetIndex(key, numSets, m), numSets, m) != key
  {
    SentinelMatch(key, numSets, m);
  }

  /** The tag of a key may differ from the sentinel and the key still match an empty slot: with four
      sets and 32-bit keys, key -1 has tag 2^30 - 1. The documented ban on keys whose tag is the
      sentinel is therefore not enough; `SentinelMatch` gives the exact one. */
  lemma SentinelAliasExample()
    ensures TagOf(-1, 4, TWO32) != -1
    ensures KeyOf(-1, SetIndex(-1, 4, TWO32), 4, TWO32) == -1
  {
    SentinelMatch(-1, 4, TWO32);
  }

  // ---------------------------------------------------------------------------------------------
  // Slot indices computed in 32-bit arithmetic.

  /** `set * NUM_WAYS + way` as `insert` computes it, in 64 bits. */
  function SlotIndex(set_: nat, way: nat): (r: nat) {
    set_ * NUM_WAYS + way
  }

  /** The same expression as `invalidate` computes it, in 32-bit unsigned arithmetic. */
  function SlotIndex32(set_: nat, way: nat): (r: nat) {
    (set_ * NUM_WAYS % TWO32 + way) % TWO32
  }

  /** The two agree on a set exactly when the set index is below 2^29. */
  lemma SlotIndexAgrees(set_: nat)
    ensures (forall way :: 0 <= way < NUM_WAYS ==> SlotIndex32(set_, way) == SlotIndex(set_, way))
              <==> set_ < 0x2000_0000
  {
    if set_ < 0x2000_0000 {
      assert forall way :: 0 <= way < NUM_WAYS ==> SlotIndex32(set_, way) == SlotIndex(set_, way);
    } else {
      assert SlotIndex32(set_, 0) != SlotIndex(set_, 0);
    }
  }
}
