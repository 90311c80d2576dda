/** The host metadata of one table of the set-associative cache as values: which slot a key is found
    in, what one key of an insert batch does, and what a whole batch does.

    A slot is numbered `set * 8 + way`. The tables of a cache use disjoint regions of the same buffers
    (module PoolLayout), so each table is treated on its own. */
module CacheSpec {
  import opened Common
  import KeyHash

  type Row = seq<int>

  /** The geometry and the hash functions, kept abstract here; `KeyHashConfig` is the instance the code
      uses. */
  datatype Config = Config(
    numSets: nat,
    inRange: int -> bool,
    setIndex: int -> nat,
    tagOf: int -> int,
    keyOf: (int, nat) -> int,
    sentinel: int)

  /** Keys are recovered from tag and set. */
  ghost predicate HashOk(c: Config) {
    && c.numSets >= 1
    && forall k :: c.inRange(k) ==> c.setIndex(k) < c.numSets && c.keyOf(c.tagOf(k), c.setIndex(k)) == k
  }

  /** A key that an empty slot is never taken for. */
  predicate Usable(c: Config, k: int) {
    c.inRange(k) && c.keyOf(c.sentinel, c.setIndex(k)) != k
  }

  function KeyHashConfig(numSets: nat, m: nat, sentinel: int): Config
    requires KeyHash.Modulus(m) && numSets >= 1
  {
    Config(
      numSets,
      k => KeyHash.InRange(k, m),
      k => KeyHash.SetIndex(k, numSets, m),
      k => KeyHash.TagOf(k, numSets, m),
      (t: int, s: nat) => KeyHash.KeyOf(t, s, numSets, m),
      sentinel)
  }

  lemma KeyHashOk(numSets: nat, m: nat, sentinel: int)
    requires KeyHash.Modulus(m) && 1 <= numSets <= KeyHash.TWO32
    ensures HashOk(KeyHashConfig(numSets, m, sentinel))
  {
    var c := KeyHashConfig(numSets, m, sentinel);
    forall k | c.inRange(k)
      ensures c.setIndex(k) < c.numSets && c.keyOf(c.tagOf(k), c.setIndex(k)) == k
    {
      KeyHash.RoundTrip(k, numSets, m);
    }
  }

  // ---------------------------------------------------------------------------------------------
  // Tags of one table.

  predicate Sized<T>(c: Config, s: seq<T>) {
    |s| == c.numSets * 8
  }

  /** The key that slot `x` stands for. */
  function KeyAt(c: Config, tags: seq<int>, x: nat): int
    requires x < |tags|
  {
    c.keyOf(tags[x], x / 8)
  }

  /** Slot `x` matches key `k` in the way scan of `k`'s set. */
  predicate Matches(c: Config, tags: seq<int>, k: int, x: nat) {
    x < |tags| && x / 8 == c.setIndex(k) && KeyAt(c, tags, x) == k
  }

  predicate Resident(c: Config, tags: seq<int>, k: int) {
    exists x :: 0 <= x < |tags| && Matches(c, tags, k, x)
  }

  /** Every tag is the sentinel or belongs to a usable key of its set, and no set holds a key twice. */
  ghost predicate TagsOk(c: Config, tags: seq<int>) {
    && Sized(c, tags)
    && (forall x {:trigger Occupied(c, tags, x)} :: 0 <= x < |tags| ==> tags[x] == c.sentinel || Occupied(c, tags, x))
    && (forall x: nat, y: nat {:trigger SameSet(x, y)} ::
          x < |tags| && y < |tags| && x != y && SameSet(x, y) && tags[x] == tags[y] ==> tags[x] == c.sentinel)
  }

  predicate SameSet(x: nat, y: nat) {
    x / 8 == y / 8
  }

  predicate Occupied(c: Config, tags: seq<int>, x: nat)
    requires x < |tags|
  {
    var k := KeyAt(c, tags, x);
    Usable(c, k) && c.setIndex(k) == x / 8 && c.tagOf(k) == tags[x]
  }

  /** No set holds a key twice. */
  lemma MatchUnique(c: Config, tags: seq<int>, k: int, x: nat, y: nat)
    requires HashOk(c) && TagsOk(c, tags) && Usable(c, k)
    requires Matches(c, tags, k, x) && Matches(c, tags, k, y)
    ensures x == y && tags[x] != c.sentinel && tags[x] == c.tagOf(k) && Occupied(c, tags, x)
  {
    assert Occupied(c, tags, x) && tags[x] == c.tagOf(k);
    assert Occupied(c, tags, y) && tags[y] == c.tagOf(k);
    assert SameSet(x, y);
  }

  lemma OthersMiss(c: Config, tags: seq<int>, k: int, x: nat)
    requires HashOk(c) && TagsOk(c, tags) && Usable(c, k) && Matches(c, tags, k, x)
    ensures forall y :: 0 <= y < |tags| && y != x ==> !Matches(c, tags, k, y)
  {
    forall y | 0 <= y < |tags| && Matches(c, tags, k, y) ensures y == x { MatchUnique(c, tags, k, x, y); }
  }

  /** The contract of a lookup: the row of the slot that matches, if any. */
  ghost function Lookup(c: Config, tags: seq<int>, rows: seq<Row>, k: int): Option<Row>
    requires |rows| == |tags|
  {
    if x :| 0 <= x < |tags| && Matches(c, tags, k, x) then Some(rows[x]) else None
  }

  /** The slot in which the scan over the ways of `k`'s set finds `k`; -1 if it finds none. */
  ghost function FindSlot(c: Config, tags: seq<int>, k: int): (x: int) {
    if x :| 0 <= x < |tags| && Matches(c, tags, k, x) then x else -1
  }

  // ---------------------------------------------------------------------------------------------
  // Insert.

  /** `src` is the row to copy, `tag` the tag to publish. */
  datatype ModifyEntry = ModifyEntry(src: Row, slot: nat, tag: int)

  /** `x` is the first least counter among the `j` slots from `base` on. */
  predicate FirstMin(counters: seq<real>, base: nat, j: nat, x: nat) {
    && base <= x < base + j <= |counters|
    && (forall y :: base <= y < base + j ==> counters[x] <= counters[y])
    && (forall y :: base <= y < x ==> counters[x] < counters[y])
  }

  lemma {:induction false} FirstMinExists(counters: seq<real>, base: nat, j: nat)
    requires base + j <= |counters| && j >= 1
    ensures exists x: nat :: FirstMin(counters, base, j, x)
  {
    if j == 1 {
      assert FirstMin(counters, base, 1, base);
    } else {
      FirstMinExists(counters, base, j - 1);
      var x: nat :| FirstMin(counters, base, j - 1, x);
      var z := if counters[base + j - 1] < counters[x] then base + j - 1 else x;
      assert FirstMin(counters, base, j, z);
    }
  }

  /** The first least counter of the set that starts at slot `base`. */
  ghost function MinSlot(counters: seq<real>, base: nat): (x: nat)
    requires base + 8 <= |counters|
  {
    FirstMinExists(counters, base, 8);
    var x: nat :| FirstMin(counters, base, 8, x);
    x
  }

  datatype Insertion = Insertion(tags: seq<int>, counters: seq<real>, pending: map<nat, ModifyEntry>)

  datatype Candidate = Candidate(key: int, priority: real, row: Row)

  ghost predicate InsertionSized(c: Config, st: Insertion) {
    Sized(c, st.tags) && Sized(c, st.counters)
  }

  /** One key of an insert batch: a resident key gains its priority; any other key takes the slot with the
      least counter, unless that counter is larger or the slot was filled earlier in this batch. (A set index is
      always below the number of sets, see `HashOk`; the first case only makes the function total.) */
  ghost function InsertOne(c: Config, st: Insertion, a: Candidate): (r: Insertion)
    requires Sized(c, st.tags) && Sized(c, st.counters)
    ensures Sized(c, r.tags) && Sized(c, r.counters) && |r.pending| <= |st.pending| + 1
  {
    var x := FindSlot(c, st.tags, a.key);
    if c.setIndex(a.key) >= c.numSets then st
    else if x != -1 then
      st.(counters := st.counters[x := st.counters[x] + a.priority])
    else
      var y := MinSlot(st.counters, c.setIndex(a.key) * 8);
      if st.counters[y] > a.priority || y in st.pending then st
      else
        Place(c, st, a, y)
  }

  ghost function Place(c: Config, st: Insertion, a: Candidate, y: nat): (r: Insertion)
    requires y < |st.tags| == |st.counters|
  {
    var tag := c.tagOf(a.key);
    Insertion(st.tags[y := tag], st.counters[y := a.priority], st.pending[y := ModifyEntry(a.row, y, tag)])
  }

  predicate KeysOk(c: Config, batch: seq<Candidate>) {
    forall i :: 0 <= i < |batch| ==> Usable(c, batch[i].key)
  }

  /** The state after the first `n` keys; once `max` slots are pending the batch is cut off. */
  ghost function InsertUpTo(c: Config, st: Insertion, batch: seq<Candidate>, max: nat, n: nat): (r: Insertion)
    requires Sized(c, st.tags) && Sized(c, st.counters) && n <= |batch|
    ensures Sized(c, r.tags) && Sized(c, r.counters)
    decreases n, 0
  {
    if n == 0 then st else InsertNth(c, st, batch, max, n - 1)
  }

  /** The state after key `i`. */
  ghost function InsertNth(c: Config, st: Insertion, batch: seq<Candidate>, max: nat, i: nat): (r: Insertion)
    requires Sized(c, st.tags) && Sized(c, st.counters) && i < |batch|
    ensures Sized(c, r.tags) && Sized(c, r.counters)
    decreases i, 1
  {
    var s := InsertUpTo(c, st, batch, max, i);
    if |s.pending| >= max then s else InsertOne(c, s, batch[i])
  }

  /** What holds of an insertion in progress that started from `tags0`: pending slots carry their new tag,
      all other slots the old one. */
  ghost predicate InsertionOk(c: Config, tags0: seq<int>, st: Insertion) {
    && TagsOk(c, st.tags) && Sized(c, st.counters) && |tags0| == |st.tags|
    && (forall x :: x in st.pending ==>
         x < |st.tags| && st.pending[x].slot == x && st.pending[x].tag == st.tags[x] != c.sentinel)
    && (forall x :: 0 <= x < |st.tags| && x !in st.pending ==> st.tags[x] == tags0[x])
  }

  /** Giving a slot of its set to a key that is not resident keeps the tags in order. */
  lemma PlaceOk(c: Config, tags: seq<int>, k: int, y: nat)
    requires HashOk(c) && TagsOk(c, tags) && Usable(c, k) && !Resident(c, tags, k)
    requires y < |tags| && y / 8 == c.setIndex(k)
    ensures TagsOk(c, tags[y := c.tagOf(k)]) && c.tagOf(k) != c.sentinel
    ensures Matches(c, tags[y := c.tagOf(k)], k, y)
  {
    var tag := c.tagOf(k);
    var r := tags[y := tag];
    forall x | 0 <= x < |r| ensures r[x] == c.sentinel || Occupied(c, r, x) {
      if x != y { assert tags[x] == c.sentinel || Occupied(c, tags, x); }
    }
    forall x | 0 <= x < |r| && x != y && SameSet(x, y) ensures r[x] != tag {
      assert !Matches(c, tags, k, x);
    }
    forall x: nat, z: nat | x < |r| && z < |r| && x != z && SameSet(x, z) && r[x] == r[z] ensures r[x] == c.sentinel {
      if x != y && z != y { assert tags[x] == tags[z]; } else { assert SameSet(x, y) && SameSet(z, y); }
    }
  }

  lemma PlaceInsertion(c: Config, tags0: seq<int>, st: Insertion, a: Candidate, y: nat)
    requires HashOk(c) && InsertionOk(c, tags0, st) && Usable(c, a.key) && !Resident(c, st.tags, a.key)
    requires y < |st.tags| && y / 8 == c.setIndex(a.key) && y !in st.pending
    ensures InsertionOk(c, tags0, Place(c, st, a, y))
    ensures Matches(c, Place(c, st, a, y).tags, a.key, y)
  {
    PlaceOk(c, st.tags, a.key, y);
  }

  lemma InsertOneOk(c: Config, tags0: seq<int>, st: Insertion, a: Candidate)
    requires HashOk(c) && InsertionOk(c, tags0, st) && Usable(c, a.key)
    ensures InsertionOk(c, tags0, InsertOne(c, st, a))
    ensures var r := InsertOne(c, st, a);
            && (forall x :: x in st.pending ==>
                 x in r.pending && r.pending[x] == st.pending[x] && r.tags[x] == st.tags[x])
            && (forall x :: x in r.pending && x !in st.pending ==>
                 Matches(c, r.tags, a.key, x) && r.pending[x].src == a.row)
  {
    var x := FindSlot(c, st.tags, a.key);
    if x == -1 {
      FirstMinExists(st.counters, c.setIndex(a.key) * 8, 8);
      var y := MinSlot(st.counters, c.setIndex(a.key) * 8);
      if st.counters[y] <= a.priority && y !in st.pending {
        PlaceInsertion(c, tags0, st, a, y);
      }
    } else {
      assert InsertOne(c, st, a) == st.(counters := st.counters[x := st.counters[x] + a.priority]);
    }
  }

  lemma {:induction false} PendingBounded(c: Config, st: Insertion, batch: seq<Candidate>, max: nat, n: nat)
    requires Sized(c, st.tags) && Sized(c, st.counters) && st.pending == map[] && n <= |batch|
    ensures |InsertUpTo(c, st, batch, max, n).pending| <= max
  {
    if n > 0 { PendingBounded(c, st, batch, max, n - 1); }
  }

  /** Slot `x` was filled for a key of the batch, with that key's row. */
  ghost predicate FilledFrom(c: Config, st: Insertion, batch: seq<Candidate>, x: nat) {
    x in st.pending && x < |st.tags| &&
    exists i :: 0 <= i < |batch| && Matches(c, st.tags, batch[i].key, x) && st.pending[x].src == batch[i].row
  }

  ghost predicate AllFilledFrom(c: Config, st: Insertion, batch: seq<Candidate>) {
    forall x :: x in st.pending ==> FilledFrom(c, st, batch, x)
  }

  lemma FilledStep(c: Config, tags0: seq<int>, s: Insertion, batch: seq<Candidate>, n: nat)
    requires HashOk(c) && InsertionOk(c, tags0, s) && n < |batch| && Usable(c, batch[n].key)
    requires AllFilledFrom(c, s, batch)
    ensures InsertionOk(c, tags0, InsertOne(c, s, batch[n]))
    ensures AllFilledFrom(c, InsertOne(c, s, batch[n]), batch)
  {
    InsertOneOk(c, tags0, s, batch[n]);
    var r := InsertOne(c, s, batch[n]);
    forall x | x in r.pending ensures FilledFrom(c, r, batch, x) {
      if x in s.pending {
        assert FilledFrom(c, s, batch, x);
        var i :| 0 <= i < |batch| && Matches(c, s.tags, batch[i].key, x) && s.pending[x].src == batch[i].row;
        assert Matches(c, r.tags, batch[i].key, x);
      } else {
        assert Matches(c, r.tags, batch[n].key, x);
      }
    }
  }

  ghost predicate InProgress(c: Config, tags0: seq<int>, st: Insertion, batch: seq<Candidate>) {
    InsertionOk(c, tags0, st) && AllFilledFrom(c, st, batch)
  }

  lemma NthOk(c: Config, st: Insertion, batch: seq<Candidate>, max: nat, i: nat)
    requires HashOk(c) && TagsOk(c, st.tags) && Sized(c, st.counters) && KeysOk(c, batch) && i < |batch|
    ensures InProgress(c, st.tags, InsertUpTo(c, st, batch, max, i), batch) ==>
            InProgress(c, st.tags, InsertNth(c, st, batch, max, i), batch)
  {
    var s := InsertUpTo(c, st, batch, max, i);
    if InProgress(c, st.tags, s, batch) && |s.pending| < max { FilledStep(c, st.tags, s, batch, i); }
  }

  /** Over a whole batch the tags stay in order, pending slots carry the row of their key, and all other
      slots keep their tag. */
  lemma {:induction false} InsertUpToOk(c: Config, st: Insertion, batch: seq<Candidate>, max: nat, n: nat)
    requires HashOk(c) && TagsOk(c, st.tags) && Sized(c, st.counters) && st.pending == map[]
    requires KeysOk(c, batch) && n <= |batch|
    ensures InProgress(c, st.tags, InsertUpTo(c, st, batch, max, n), batch)
  {
    if n > 0 {
      InsertUpToOk(c, st, batch, max, n - 1);
      NthOk(c, st, batch, max, n - 1);
    }
  }

  lemma InsertNext(c: Config, st: Insertion, batch: seq<Candidate>, max: nat, i: nat)
    requires HashOk(c) && TagsOk(c, st.tags) && Sized(c, st.counters) && st.pending == map[]
    requires KeysOk(c, batch) && i < |batch| && |InsertUpTo(c, st, batch, max, i).pending| < max
    ensures TagsOk(c, InsertUpTo(c, st, batch, max, i).tags)
    ensures InsertUpTo(c, st, batch, max, i + 1) == InsertOne(c, InsertUpTo(c, st, batch, max, i), batch[i])
  {
    InsertUpToOk(c, st, batch, max, i);
  }
}
