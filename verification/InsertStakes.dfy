/** Which keys stay: with untied stakes, those whose stakes are among the eight largest of their set. */
module InsertStakes {

  import opened CacheSpec
  import opened InsertIdeal
  import opened InsertMixed

  // ---------------------------------------------------------------------------------------------
  // Stakes by slot and by key of the batch.

  datatype Entry = OldEntry(x: nat) | NewEntry(i: nat)

  ghost predicate EntryOk(c: Config, st: Insertion, batch: seq<Candidate>, s: nat, e: Entry) {
    match e
    case OldEntry(x) => s * 8 <= x < s * 8 + 8 <= |st.counters|
    case NewEntry(i) => i < |batch| && IsNew(c, st, batch[i], s)
  }

  ghost function EntryValue(c: Config, st: Insertion, batch: seq<Candidate>, s: nat, e: Entry): real
    requires EntryOk(c, st, batch, s, e)
  {
    match e
    case OldEntry(x) => st.counters[x] + Raised(c, st, batch, x, |batch|)
    case NewEntry(i) => batch[i].priority
  }

  /** The entry is the stake of key `k`. */
  predicate KeyEntry(c: Config, st: Insertion, batch: seq<Candidate>, k: int, e: Entry) {
    match e
    case OldEntry(x) => Matches(c, st.tags, k, x)
    case NewEntry(i) => i < |batch| && batch[i].key == k
  }

  /** How often `v` is in a list. */
  function Equal(xs: seq<real>, v: real): int {
    Count(xs, v, true) - Count(xs, v, false)
  }

  lemma {:induction false} EqualNat(xs: seq<real>, v: real)
    ensures Equal(xs, v) >= 0
  {
    if xs != [] {
      EqualNat(xs[..|xs| - 1], v);
    }
  }

  lemma {:induction false} EqualAt(xs: seq<real>, v: real, i: nat)
    requires i < |xs| && xs[i] == v
    ensures Equal(xs, v) >= 1
  {
    var n := |xs| - 1;
    EqualNat(xs[..n], v);
    if i < n {
      EqualAt(xs[..n], v, i);
    }
  }

  lemma {:induction false} EqualTwice(xs: seq<real>, v: real, i: nat, j: nat)
    requires i < j < |xs| && xs[i] == v && xs[j] == v
    ensures Equal(xs, v) >= 2
  {
    var n := |xs| - 1;
    if j < n {
      EqualTwice(xs[..n], v, i, j);
    } else {
      EqualAt(xs[..n], v, i);
    }
  }

  lemma {:induction false} EqualIn(xs: seq<real>, v: real) returns (i: nat)
    requires Equal(xs, v) >= 1
    ensures i < |xs| && xs[i] == v
  {
    var n := |xs| - 1;
    if xs[n] == v {
      i := n;
    } else {
      i := EqualIn(xs[..n], v);
    }
  }

  lemma EqualPush(xs: seq<real>, x: real, v: real)
    ensures Equal(xs + [x], v) == Equal(xs, v) + if x == v then 1 else 0
  {
    CountPush(xs, x, v, true);
    CountPush(xs, x, v, false);
  }

  lemma NewNext(c: Config, st: Insertion, batch: seq<Candidate>, s: nat, i: nat)
    requires i < |batch|
    ensures var was := NewStakes(c, st, batch, s, i);
            NewStakes(c, st, batch, s, i + 1) == if IsNew(c, st, batch[i], s) then was + [batch[i].priority] else was
  {
    assert !IsNew(c, st, batch[i], s) ==> NewStakes(c, st, batch, s, i + 1) == NewStakes(c, st, batch, s, i) + [];
  }

  lemma {:induction false} NewOnce(c: Config, st: Insertion, batch: seq<Candidate>, s: nat, n: nat, i: nat)
    requires i < n <= |batch| && IsNew(c, st, batch[i], s)
    ensures Equal(NewStakes(c, st, batch, s, n), batch[i].priority) >= 1
  {
    EqualPush(NewStakes(c, st, batch, s, n - 1), batch[n - 1].priority, batch[i].priority);
    EqualNat(NewStakes(c, st, batch, s, n - 1), batch[i].priority);
    NewNext(c, st, batch, s, n - 1);
    if i < n - 1 {
      NewOnce(c, st, batch, s, n - 1, i);
    }
  }

  lemma {:induction false} NewTwice(c: Config, st: Insertion, batch: seq<Candidate>, s: nat, n: nat, i: nat, j: nat)
    requires i < j < n <= |batch| && IsNew(c, st, batch[i], s) && IsNew(c, st, batch[j], s)
    requires batch[i].priority == batch[j].priority
    ensures Equal(NewStakes(c, st, batch, s, n), batch[i].priority) >= 2
  {
    EqualPush(NewStakes(c, st, batch, s, n - 1), batch[n - 1].priority, batch[i].priority);
    NewNext(c, st, batch, s, n - 1);
    if j < n - 1 {
      NewTwice(c, st, batch, s, n - 1, i, j);
    } else {
      NewOnce(c, st, batch, s, n - 1, i);
    }
  }

  lemma EqualStakes(c: Config, st: Insertion, batch: seq<Candidate>, s: nat, v: real)
    requires s * 8 + 8 <= |st.counters|
    ensures Equal(Stakes(c, st, batch, s, |batch|), v) ==
            Equal(OldStakes(c, st, batch, s, |batch|), v) + Equal(NewStakes(c, st, batch, s, |batch|), v)
    ensures Equal(OldStakes(c, st, batch, s, |batch|), v) >= 0 && Equal(NewStakes(c, st, batch, s, |batch|), v) >= 0
  {
    CountConcat(OldStakes(c, st, batch, s, |batch|), NewStakes(c, st, batch, s, |batch|), v, true);
    CountConcat(OldStakes(c, st, batch, s, |batch|), NewStakes(c, st, batch, s, |batch|), v, false);
    EqualNat(OldStakes(c, st, batch, s, |batch|), v);
    EqualNat(NewStakes(c, st, batch, s, |batch|), v);
  }

  lemma EntryCounts(c: Config, st: Insertion, batch: seq<Candidate>, s: nat, e: Entry)
    requires s * 8 + 8 <= |st.counters| && EntryOk(c, st, batch, s, e)
    ensures Equal(Stakes(c, st, batch, s, |batch|), EntryValue(c, st, batch, s, e)) >= 1
    ensures e.OldEntry? ==> Equal(OldStakes(c, st, batch, s, |batch|), EntryValue(c, st, batch, s, e)) >= 1
    ensures e.NewEntry? ==> Equal(NewStakes(c, st, batch, s, |batch|), EntryValue(c, st, batch, s, e)) >= 1
  {
    EqualStakes(c, st, batch, s, EntryValue(c, st, batch, s, e));
    match e
    case OldEntry(x) => EqualAt(OldStakes(c, st, batch, s, |batch|), EntryValue(c, st, batch, s, e), x - s * 8);
    case NewEntry(i) => NewOnce(c, st, batch, s, |batch|, i);
  }

  /** A stake that is not tied has one entry. */
  lemma OneEntry(c: Config, st: Insertion, batch: seq<Candidate>, s: nat, e: Entry, e': Entry)
    requires s * 8 + 8 <= |st.counters| && EntryOk(c, st, batch, s, e) && EntryOk(c, st, batch, s, e')
    requires EntryValue(c, st, batch, s, e) == EntryValue(c, st, batch, s, e')
    requires Equal(Stakes(c, st, batch, s, |batch|), EntryValue(c, st, batch, s, e)) == 1
    ensures e == e'
  {
    var v := EntryValue(c, st, batch, s, e);
    EqualStakes(c, st, batch, s, v);
    EntryCounts(c, st, batch, s, e);
    EntryCounts(c, st, batch, s, e');
    if e.OldEntry? && e'.OldEntry? && e != e' {
      var lo, hi := if e.x < e'.x then e.x else e'.x, if e.x < e'.x then e'.x else e.x;
      EqualTwice(OldStakes(c, st, batch, s, |batch|), v, lo - s * 8, hi - s * 8);
    } else if e.NewEntry? && e'.NewEntry? && e != e' {
      NewTwice(c, st, batch, s, |batch|, if e.i < e'.i then e.i else e'.i, if e.i < e'.i then e'.i else e.i);
    }
  }

  // ---------------------------------------------------------------------------------------------
  // The entry of every slot.

  /** A slot that was refilled holds a batch key that was not resident at its turn, with its priority. */
  ghost predicate RefilledBy(c: Config, st: Insertion, batch: seq<Candidate>, max: nat, n: nat, y: nat, i: nat)
    requires Batch(c, st, batch, max, n)
  {
    && i < n && y < |st.tags| && Matches(c, At(c, st, batch, max, n).tags, batch[i].key, y)
    && At(c, st, batch, max, n).counters[y] == batch[i].priority
    && !Resident(c, At(c, st, batch, max, i).tags, batch[i].key)
  }

  lemma RefilledStep(c: Config, tags0: seq<int>, r: Insertion, a: Candidate, k: int, y: nat)
    requires HashOk(c) && InsertionOk(c, tags0, r) && Usable(c, a.key) && Usable(c, k) && a.key != k
    requires y in r.pending && Matches(c, r.tags, k, y)
    ensures var r' := InsertOne(c, r, a); Matches(c, r'.tags, k, y) && r'.counters[y] == r.counters[y]
  {
    InsertOneOk(c, tags0, r, a);
    if z :| 0 <= z < |r.tags| && Matches(c, r.tags, a.key, z) {
      ResidentGains(c, r, a, z);
      MatchUnique(c, r.tags, a.key, z, z);
    } else {
      assert !Resident(c, r.tags, a.key);
      FirstMinExists(r.counters, c.setIndex(a.key) * 8, 8);
    }
  }

  lemma PlacedStep(c: Config, tags0: seq<int>, r: Insertion, a: Candidate, y: nat)
    requires HashOk(c) && InsertionOk(c, tags0, r) && Usable(c, a.key)
    requires y !in r.pending && y in InsertOne(c, r, a).pending
    ensures !Resident(c, r.tags, a.key) && y < |r.tags|
    ensures var r' := InsertOne(c, r, a); Matches(c, r'.tags, a.key, y) && r'.counters[y] == a.priority
  {
    InsertOneOk(c, tags0, r, a);
    if z :| 0 <= z < |r.tags| && Matches(c, r.tags, a.key, z) {
      ResidentGains(c, r, a, z);
    } else {
      assert !Resident(c, r.tags, a.key);
      FirstMinExists(r.counters, c.setIndex(a.key) * 8, 8);
    }
  }

  lemma {:induction false} Refilled(c: Config, st: Insertion, batch: seq<Candidate>, max: nat, n: nat, y: nat)
    returns (i: nat)
    requires Batch(c, st, batch, max, n) && y in At(c, st, batch, max, n).pending
    ensures RefilledBy(c, st, batch, max, n, y, i)
  {
    var m := n - 1;
    Reached(c, st, batch, max, m);
    AtOk(c, st, batch, max, m);
    if y in At(c, st, batch, max, m).pending {
      i := Refilled(c, st, batch, max, m, y);
      RefilledStep(c, st.tags, At(c, st, batch, max, m), batch[m], batch[i].key, y);
    } else {
      i := m;
      PlacedStep(c, st.tags, At(c, st, batch, max, m), batch[m], y);
    }
  }

  lemma OneRaises(c: Config, tags0: seq<int>, r: Insertion, a: Candidate, y: nat)
    requires HashOk(c) && InsertionOk(c, tags0, r) && Usable(c, a.key) && y < |r.tags|
    requires y !in InsertOne(c, r, a).pending
    ensures InsertOne(c, r, a).counters[y] == r.counters[y] + if Matches(c, r.tags, a.key, y) then a.priority else 0.0
  {
    if z :| 0 <= z < |r.tags| && Matches(c, r.tags, a.key, z) {
      ResidentGains(c, r, a, z);
      if Matches(c, r.tags, a.key, y) {
        MatchUnique(c, r.tags, a.key, y, z);
      }
    } else {
      assert !Resident(c, r.tags, a.key);
      MissAt(c, r, a, y);
    }
  }

  /** A slot that was not refilled ends with its stake. */
  lemma {:induction false} KeptRaised(c: Config, st: Insertion, batch: seq<Candidate>, max: nat, n: nat, y: nat)
    requires Batch(c, st, batch, max, n) && y < |st.tags| && y !in At(c, st, batch, max, n).pending
    ensures At(c, st, batch, max, n).counters[y] == st.counters[y] + Raised(c, st, batch, y, n)
  {
    if n > 0 {
      var r := At(c, st, batch, max, n - 1);
      Reached(c, st, batch, max, n - 1);
      AtOk(c, st, batch, max, n - 1);
      InsertOneOk(c, st.tags, r, batch[n - 1]);
      KeptRaised(c, st, batch, max, n - 1, y);
      OneRaises(c, st.tags, r, batch[n - 1], y);
      assert r.tags[y] == st.tags[y];
    }
  }

  lemma {:induction false} RaisedOnce(c: Config, st: Insertion, batch: seq<Candidate>, x: nat, n: nat, i: nat)
    requires i < n <= |batch| && Matches(c, st.tags, batch[i].key, x)
    requires forall j :: 0 <= j < n && j != i ==> batch[j].key != batch[i].key
    ensures Raised(c, st, batch, x, n) == batch[i].priority
  {
    if i == n - 1 {
      NotRaised(c, st, batch, x, i);
    } else {
      RaisedOnce(c, st, batch, x, n - 1, i);
    }
  }

  /** The entry behind the counter of a slot, and its key. */
  ghost predicate EntryOf(c: Config, st: Insertion, batch: seq<Candidate>, max: nat, s: nat, y: nat, e: Entry)
    requires Batch(c, st, batch, max, |batch|) && y < |st.tags|
  {
    && EntryOk(c, st, batch, s, e)
    && EntryValue(c, st, batch, s, e) == At(c, st, batch, max, |batch|).counters[y]
    && forall k :: Usable(c, k) && c.setIndex(k) == s ==>
         (KeyEntry(c, st, batch, k, e) <==> Matches(c, At(c, st, batch, max, |batch|).tags, k, y))
  }

  lemma KeptEntry(c: Config, st: Insertion, batch: seq<Candidate>, max: nat, s: nat, y: nat)
    requires Batch(c, st, batch, max, |batch|) && s < c.numSets && s * 8 <= y < s * 8 + 8
    requires y !in At(c, st, batch, max, |batch|).pending
    ensures EntryOf(c, st, batch, max, s, y, OldEntry(y))
  {
    KeptRaised(c, st, batch, max, |batch|, y);
    AtOk(c, st, batch, max, |batch|);
    assert At(c, st, batch, max, |batch|).tags[y] == st.tags[y];
  }

  lemma NewEntryOf(c: Config, st: Insertion, batch: seq<Candidate>, max: nat, s: nat, y: nat, i: nat)
    requires Batch(c, st, batch, max, |batch|) && s < c.numSets && s * 8 <= y < s * 8 + 8
    requires RefilledBy(c, st, batch, max, |batch|, y, i) && !Resident(c, st.tags, batch[i].key)
    ensures EntryOf(c, st, batch, max, s, y, NewEntry(i))
  {
    var r := At(c, st, batch, max, |batch|);
    forall k | Usable(c, k) && c.setIndex(k) == s
      ensures KeyEntry(c, st, batch, k, NewEntry(i)) <==> Matches(c, r.tags, k, y)
    {
    }
  }

  lemma NothingToLose(held: seq<real>, w: nat, old_: real, p: real)
    requires w < |held| && held[w] == p && old_ >= 0.0 && (old_ > 0.0 ==> NoneAbove([old_ + p], held))
    ensures old_ == 0.0
  {
    assert NoneAbove([old_ + p], held) ==> [old_ + p][0] <= held[w];
  }

  lemma DisplacedEntry(c: Config, st: Insertion, batch: seq<Candidate>, max: nat, s: nat, y: nat, i: nat, x: nat)
    requires Batch(c, st, batch, max, |batch|) && s < c.numSets && s * 8 <= y < s * 8 + 8
    requires RefilledBy(c, st, batch, max, |batch|, y, i) && Matches(c, st.tags, batch[i].key, x)
    requires !Wronged(c, st, batch, max, s, i)
    ensures EntryOf(c, st, batch, max, s, y, OldEntry(x))
  {
    var r, held := At(c, st, batch, max, |batch|), HeldAfter(c, st, batch, max, s);
    OldCounterIs(c, st, batch[i].key, x);
    assert Displaced(c, st, batch, max, i);
    assert held[y - s * 8] == batch[i].priority;
    NothingToLose(held, y - s * 8, st.counters[x], batch[i].priority);
    RaisedOnce(c, st, batch, x, |batch|, i);
    forall k | Usable(c, k) && c.setIndex(k) == s
      ensures KeyEntry(c, st, batch, k, OldEntry(x)) <==> Matches(c, r.tags, k, y)
    {
    }
  }

  lemma SlotEntry(c: Config, st: Insertion, batch: seq<Candidate>, max: nat, s: nat, y: nat) returns (e: Entry)
    requires Batch(c, st, batch, max, |batch|) && s < c.numSets && s * 8 <= y < s * 8 + 8
    requires NoneWronged(c, st, batch, max, s)
    ensures EntryOf(c, st, batch, max, s, y, e)
  {
    if y !in At(c, st, batch, max, |batch|).pending {
      e := OldEntry(y);
      KeptEntry(c, st, batch, max, s, y);
    } else {
      var i := Refilled(c, st, batch, max, |batch|, y);
      if x: nat :| x < |st.tags| && Matches(c, st.tags, batch[i].key, x) {
        e := OldEntry(x);
        DisplacedEntry(c, st, batch, max, s, y, i, x);
      } else {
        e := NewEntry(i);
        NewEntryOf(c, st, batch, max, s, y, i);
      }
    }
  }

  // ---------------------------------------------------------------------------------------------
  // The winners.

  /** Where the eight largest stakes stay, a key whose stake is not tied is resident after the batch if and only if
      fewer than eight stakes are larger. */
  lemma WinsIff(c: Config, st: Insertion, batch: seq<Candidate>, max: nat, s: nat, k: int, e: Entry)
    requires Batch(c, st, batch, max, |batch|) && s < c.numSets && Usable(c, k) && c.setIndex(k) == s
    requires NoneWronged(c, st, batch, max, s) && EntryOk(c, st, batch, s, e) && KeyEntry(c, st, batch, k, e)
    requires Equal(Stakes(c, st, batch, s, |batch|), EntryValue(c, st, batch, s, e)) == 1
    ensures Resident(c, At(c, st, batch, max, |batch|).tags, k) <==>
            Count(Stakes(c, st, batch, s, |batch|), EntryValue(c, st, batch, s, e), false) < 8
  {
    NoneWrongedIsIdeal(c, st, batch, max, s);
    if Resident(c, At(c, st, batch, max, |batch|).tags, k) {
      WinnerIsLarge(c, st, batch, max, s, k, e);
    }
    if Count(Stakes(c, st, batch, s, |batch|), EntryValue(c, st, batch, s, e), false) < 8 {
      LargeIsWinner(c, st, batch, max, s, k, e);
    }
  }

  /** A key has one entry. */
  lemma EntryUnique(c: Config, st: Insertion, batch: seq<Candidate>, max: nat, s: nat, k: int, e: Entry, e': Entry)
    requires Batch(c, st, batch, max, |batch|) && Usable(c, k)
    requires EntryOk(c, st, batch, s, e) && KeyEntry(c, st, batch, k, e)
    requires EntryOk(c, st, batch, s, e') && KeyEntry(c, st, batch, k, e')
    ensures e == e'
  {
    if e.OldEntry? && e'.OldEntry? {
      MatchUnique(c, st.tags, k, e.x, e'.x);
    }
  }

  lemma WinnerIsLarge(c: Config, st: Insertion, batch: seq<Candidate>, max: nat, s: nat, k: int, e: Entry)
    requires Batch(c, st, batch, max, |batch|) && s < c.numSets && Usable(c, k) && c.setIndex(k) == s
    requires NoneWronged(c, st, batch, max, s) && EntryOk(c, st, batch, s, e) && KeyEntry(c, st, batch, k, e)
    requires Resident(c, At(c, st, batch, max, |batch|).tags, k)
    requires EightLargest(HeldAfter(c, st, batch, max, s), Stakes(c, st, batch, s, |batch|))
    ensures Count(Stakes(c, st, batch, s, |batch|), EntryValue(c, st, batch, s, e), false) < 8
  {
    var r, held, v := At(c, st, batch, max, |batch|), HeldAfter(c, st, batch, max, s), EntryValue(c, st, batch, s, e);
    var y: nat :| y < |r.tags| && Matches(c, r.tags, k, y);
    var e' := SlotEntry(c, st, batch, max, s, y);
    EntryUnique(c, st, batch, max, s, k, e, e');
    assert held[y - s * 8] == v;
    CountBound(held, v, false);
    assert !Above(held[y - s * 8], v, false);
  }

  lemma LargeIsWinner(c: Config, st: Insertion, batch: seq<Candidate>, max: nat, s: nat, k: int, e: Entry)
    requires Batch(c, st, batch, max, |batch|) && s < c.numSets && Usable(c, k) && c.setIndex(k) == s
    requires NoneWronged(c, st, batch, max, s) && EntryOk(c, st, batch, s, e) && KeyEntry(c, st, batch, k, e)
    requires Equal(Stakes(c, st, batch, s, |batch|), EntryValue(c, st, batch, s, e)) == 1
    requires EightLargest(HeldAfter(c, st, batch, max, s), Stakes(c, st, batch, s, |batch|))
    requires Count(Stakes(c, st, batch, s, |batch|), EntryValue(c, st, batch, s, e), false) < 8
    ensures Resident(c, At(c, st, batch, max, |batch|).tags, k)
  {
    var held, v := HeldAfter(c, st, batch, max, s), EntryValue(c, st, batch, s, e);
    assert Equal(held, v) == 1;
    var w := EqualIn(held, v);
    var e' := SlotEntry(c, st, batch, max, s, s * 8 + w);
    OneEntry(c, st, batch, s, e, e');
    assert Matches(c, At(c, st, batch, max, |batch|).tags, k, s * 8 + w);
  }

  // ---------------------------------------------------------------------------------------------
  // Keys that give way before their turn.

  /** A resident key gives way only to an earlier key of its set with a priority that reaches its decayed counter. */
  lemma DisplacedBy(c: Config, st: Insertion, batch: seq<Candidate>, max: nat, i: nat) returns (j: nat)
    requires Displaced(c, st, batch, max, i)
    ensures j < i && c.setIndex(batch[j].key) == c.setIndex(batch[i].key)
    ensures batch[j].priority >= OldCounter(c, st, batch[i].key)
  {
    var k, r := batch[i].key, At(c, st, batch, max, i);
    var x: nat :| x < |st.tags| && Matches(c, st.tags, k, x);
    OldCounterIs(c, st, k, x);
    if x !in r.pending {
      KeptMatches(c, st, batch, max, k, x, i);
    }
    PendingBelow(c, st, batch, max, i, x);
    j := Refilled(c, st, batch, max, i, x);
    var held := HeldIn(r, x / 8);
    assert [st.counters[x]][0] <= held[x % 8] == batch[j].priority;
  }

  /** Key `j` of the batch could take the slot of the resident key `i`. */
  ghost predicate Threatens(c: Config, st: Insertion, batch: seq<Candidate>, j: nat, i: nat) {
    && j < i < |batch| && Resident(c, st.tags, batch[i].key) && c.setIndex(batch[j].key) == c.setIndex(batch[i].key)
    && batch[j].priority >= OldCounter(c, st, batch[i].key)
  }

  /** A caller can rule it out: no resident key of the batch gives way if its decayed counter is above the priorities of
      the keys of its set that come before it. */
  lemma NoneWrongedIf(c: Config, st: Insertion, batch: seq<Candidate>, max: nat, s: nat)
    requires Batch(c, st, batch, max, |batch|) && s < c.numSets
    requires forall i: nat, j: nat :: !Threatens(c, st, batch, j, i)
    ensures NoneWronged(c, st, batch, max, s)
  {
    forall i: nat | i < |batch|
      ensures !Wronged(c, st, batch, max, s, i)
    {
      if Displaced(c, st, batch, max, i) {
        var j := DisplacedBy(c, st, batch, max, i);
        assert Threatens(c, st, batch, j, i);
      }
    }
  }

  /** One set of keys that are their own tags. */
  function OneSet(): Config {
    Config(1, _ => true, _ => 0, k => k, (t: int, s: nat) => t, -1)
  }

  function Full(): Insertion {
    Insertion([0, 1, 2, 3, 4, 5, 6, 7], [1.0, 4.0, 4.0, 4.0, 4.0, 4.0, 4.0, 4.0], map[])
  }

  lemma FirstStep()
    ensures var r := InsertOne(OneSet(), Full(), Candidate(9, 3.0, []));
            r.tags == [9, 1, 2, 3, 4, 5, 6, 7] && r.counters == [3.0, 4.0, 4.0, 4.0, 4.0, 4.0, 4.0, 4.0]
  {
    var c, st := OneSet(), Full();
    FirstMinExists(st.counters, 0, 8);
    var y := MinSlot(st.counters, 0);
    assert st.counters[0] == 1.0 && st.counters[y] <= st.counters[0];
    assert y == 0;
    assert forall x: nat :: x < 8 ==> !Matches(c, st.tags, 9, x);
  }

  /** Key 0 has lost its slot when its turn comes. */
  lemma SecondStep(batch: seq<Candidate>)
    requires batch == [Candidate(9, 3.0, []), Candidate(0, 2.5, [])] && Batch(OneSet(), Full(), batch, 2, 2)
    ensures Displaced(OneSet(), Full(), batch, 2, 1) && HeldAfter(OneSet(), Full(), batch, 2, 0)[0] == 3.0
  {
    var c, st := OneSet(), Full();
    var r1 := At(c, st, batch, 2, 1);
    Reached(c, st, batch, 2, 0);
    assert At(c, st, batch, 2, 0) == st;
    FirstStep();
    Reached(c, st, batch, 2, 1);
    assert forall x: nat :: x < 8 ==> !Matches(c, r1.tags, 0, x);
    FirstMinExists(r1.counters, 0, 8);
    assert r1.counters[0] == 3.0;
    assert Matches(c, st.tags, 0, 0);
  }

  /** Key 0 has the counter 1 and the priority 5/2, a stake above the priority 3 of the new key 9, which comes first and
      takes its slot. */
  lemma WrongedExample()
    ensures var batch := [Candidate(9, 3.0, []), Candidate(0, 2.5, [])];
            Batch(OneSet(), Full(), batch, 2, 2) && !NoneWronged(OneSet(), Full(), batch, 2, 0)
  {
    var c, st, batch := OneSet(), Full(), [Candidate(9, 3.0, []), Candidate(0, 2.5, [])];
    assert forall x: nat :: x < 8 ==> Occupied(c, st.tags, x);
    assert Batch(c, st, batch, 2, 2);
    SecondStep(batch);
    assert Matches(c, st.tags, 0, 0);
    OldCounterIs(c, st, 0, 0);
    assert HeldAfter(c, st, batch, 2, 0)[0] < [3.5][0];
    assert Wronged(c, st, batch, 2, 0, 1);
  }
}
