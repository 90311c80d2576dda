/** Which keys an insert leaves in the cache: the counters of module InsertOptimal with the keys that hold them. */
module InsertWinners {

  import opened CacheRuns
  import opened CacheSpec
  import opened InsertOptimal
  import opened SetCache

  ghost predicate Start(c: Config, st: Insertion, batch: seq<Candidate>) {
    && HashOk(c) && TagsOk(c, st.tags) && Sized(c, st.counters) && st.pending == map[]
    && FreshSorted(c, st.tags, batch)
  }

  /** Slot `x` was filled for a key of the batch, and its counter is the priority of that key. */
  ghost predicate FilledWith(c: Config, r: Insertion, batch: seq<Candidate>, x: nat) {
    exists i: nat :: i < |batch| && HasSlot(c, r, batch[i], x)
  }

  predicate HasSlot(c: Config, r: Insertion, a: Candidate, x: nat) {
    x < |r.counters| && Matches(c, r.tags, a.key, x) && r.counters[x] == a.priority
  }

  /** A slot is as before or filled from the batch. */
  ghost predicate SlotOk(c: Config, st: Insertion, r: Insertion, batch: seq<Candidate>, x: nat)
    requires InsertionSized(c, st) && InsertionSized(c, r) && x < c.numSets * 8
  {
    if x in r.pending then FilledWith(c, r, batch, x) else r.counters[x] == st.counters[x] && r.tags[x] == st.tags[x]
  }

  lemma PlaceSlot(c: Config, st: Insertion, r: Insertion, batch: seq<Candidate>, n: nat, y: nat, x: nat)
    requires HashOk(c) && InsertionSized(c, st) && InsertionOk(c, st.tags, r) && n < |batch| && Usable(c, batch[n].key)
    requires !Resident(c, r.tags, batch[n].key) && y < |r.tags| && y / 8 == c.setIndex(batch[n].key) && y !in r.pending
    requires x < c.numSets * 8 && SlotOk(c, st, r, batch, x)
    ensures SlotOk(c, st, Place(c, r, batch[n], y), batch, x)
  {
    var r' := Place(c, r, batch[n], y);
    PlaceOk(c, r.tags, batch[n].key, y);
    if x == y {
      assert HasSlot(c, r', batch[n], x);
    } else if x in r.pending {
      var i: nat :| i < |batch| && HasSlot(c, r, batch[i], x);
      assert HasSlot(c, r', batch[i], x);
    }
  }

  lemma OneSlot(c: Config, st: Insertion, r: Insertion, batch: seq<Candidate>, n: nat, x: nat)
    requires HashOk(c) && InsertionSized(c, st) && InsertionOk(c, st.tags, r) && n < |batch| && Usable(c, batch[n].key)
    requires !Resident(c, r.tags, batch[n].key) && x < c.numSets * 8 && SlotOk(c, st, r, batch, x)
    ensures SlotOk(c, st, InsertOne(c, r, batch[n]), batch, x)
  {
    var base := c.setIndex(batch[n].key) * 8;
    FirstMinExists(r.counters, base, 8);
    var y := MinSlot(r.counters, base);
    if r.counters[y] <= batch[n].priority && y !in r.pending {
      PlaceSlot(c, st, r, batch, n, y, x);
    }
  }

  lemma NthSlot(c: Config, st: Insertion, batch: seq<Candidate>, max: nat, i: nat, x: nat)
    requires Start(c, st, batch) && i < |batch| && x < c.numSets * 8
    requires SlotOk(c, st, InsertUpTo(c, st, batch, max, i), batch, x)
    ensures SlotOk(c, st, InsertNth(c, st, batch, max, i), batch, x)
  {
    InsertUpToOk(c, st, batch, max, i);
    NotFound(c, st, batch, max, i);
    OneSlot(c, st, InsertUpTo(c, st, batch, max, i), batch, i, x);
  }

  lemma {:induction false} SlotsOk(c: Config, st: Insertion, batch: seq<Candidate>, max: nat, n: nat, x: nat)
    requires Start(c, st, batch) && n <= |batch| && x < c.numSets * 8
    ensures SlotOk(c, st, InsertUpTo(c, st, batch, max, n), batch, x)
  {
    if n > 0 {
      SlotsOk(c, st, batch, max, n - 1, x);
      NthSlot(c, st, batch, max, n - 1, x);
    }
  }

  // ---------------------------------------------------------------------------------------------
  // What is on offer.

  /** The counters of a set before the batch, and the priorities of its keys in the batch. */
  ghost function OnOffer(c: Config, st: Insertion, batch: seq<Candidate>, s: nat): multiset<real>
    requires Sized(c, st.counters) && s < c.numSets
  {
    SetCounters(st.counters, s) + Offered(AllOffers(c, batch), s)
  }

  lemma {:induction false} OfferedOnce(os: seq<Offer>, s: nat, i: nat)
    requires i < |os| && os[i].reached && os[i].set_ == s
    ensures Offered(os, s)[os[i].priority] >= 1
  {
    var n := |os| - 1;
    if i < n {
      OfferedOnce(os[..n], s, i);
    }
  }

  lemma {:induction false} OfferedTwice(os: seq<Offer>, s: nat, i: nat, j: nat)
    requires i < j < |os| && os[i].reached && os[j].reached && os[i].set_ == os[j].set_ == s
    requires os[i].priority == os[j].priority
    ensures Offered(os, s)[os[i].priority] >= 2
  {
    var n := |os| - 1;
    if j < n {
      OfferedTwice(os[..n], s, i, j);
    } else {
      OfferedOnce(os[..n], s, i);
    }
  }

  lemma OfferedCounts(os: seq<Offer>, s: nat, i: nat, j: nat)
    requires i < |os| && j < |os| && os[i].reached && os[j].reached && os[i].set_ == os[j].set_ == s
    requires os[i].priority == os[j].priority
    ensures Offered(os, s)[os[i].priority] >= if i == j then 1 else 2
  {
    if i < j {
      OfferedTwice(os, s, i, j);
    } else if j < i {
      OfferedTwice(os, s, j, i);
    } else {
      OfferedOnce(os, s, i);
    }
  }

  lemma SeqTwice(xs: seq<real>, i: nat, j: nat)
    requires i < j < |xs| && xs[i] == xs[j]
    ensures multiset(xs)[xs[i]] >= 2
  {
    var a, b := xs[..j], xs[j..];
    assert xs == a + b;
    assert a[i] in multiset(a) && b[0] in multiset(b);
  }

  /** Two slots of a set with the same counter count twice. */
  lemma CountersCount(counters: seq<real>, s: nat, x: nat, y: nat)
    requires s * 8 + 8 <= |counters| && x / 8 == s && y / 8 == s && counters[x] == counters[y]
    ensures SetCounters(counters, s)[counters[x]] >= if x == y then 1 else 2
  {
    var b, xs := s * 8, counters[s * 8..s * 8 + 8];
    assert xs[x - b] == counters[x] && xs[y - b] == counters[y];
    if x < y {
      SeqTwice(xs, x - b, y - b);
    } else if y < x {
      SeqTwice(xs, y - b, x - b);
    } else {
      assert xs[x - b] in multiset(xs);
    }
  }

  lemma CounterSlot(counters: seq<real>, s: nat, p: real) returns (x: nat)
    requires s * 8 + 8 <= |counters| && p in SetCounters(counters, s)
    ensures x < |counters| && x / 8 == s && counters[x] == p
  {
    var set_ := counters[s * 8..s * 8 + 8];
    assert p in set_;
    var i: nat :| i < |set_| && set_[i] == p;
    x := s * 8 + i;
  }

  /** The counters of a set after a batch within the update limit. */
  lemma TopIs(c: Config, st: Insertion, batch: seq<Candidate>, max: nat, s: nat, top: multiset<real>)
    requires Start(c, st, batch) && |batch| <= max && s < c.numSets && IsTop8(top, OnOffer(c, st, batch, s))
    ensures SetCounters(InsertUpTo(c, st, batch, max, |batch|).counters, s) == top
  {
    InsertIsOptimal(c, st, batch, max, s);
    TopUnique(top, SetCounters(InsertUpTo(c, st, batch, max, |batch|).counters, s), OnOffer(c, st, batch, s));
  }

  // ---------------------------------------------------------------------------------------------
  // The winners.

  /** A key of the batch that is resident afterwards has its priority as a counter. */
  lemma ResidentSlot(c: Config, st: Insertion, batch: seq<Candidate>, max: nat, i: nat) returns (x: nat)
    requires Start(c, st, batch) && i < |batch| &&
             Resident(c, InsertUpTo(c, st, batch, max, |batch|).tags, batch[i].key)
    ensures HasSlot(c, InsertUpTo(c, st, batch, max, |batch|), batch[i], x)
  {
    var r, k := InsertUpTo(c, st, batch, max, |batch|), batch[i].key;
    x :| 0 <= x < |r.tags| && Matches(c, r.tags, k, x);
    SlotsOk(c, st, batch, max, |batch|, x);
    if x in r.pending {
      var j: nat :| j < |batch| && HasSlot(c, r, batch[j], x);
      assert batch[j].key == k;
    } else {
      assert Matches(c, st.tags, k, x);
    }
  }

  /** A priority that no other counter or priority of the set equals is the counter of its own key. */
  lemma OwnSlot(c: Config, st: Insertion, batch: seq<Candidate>, max: nat, i: nat, x: nat)
    requires Start(c, st, batch) && i < |batch| && x < c.numSets * 8 && x / 8 == c.setIndex(batch[i].key)
    requires OnOffer(c, st, batch, c.setIndex(batch[i].key))[batch[i].priority] == 1
    requires InsertUpTo(c, st, batch, max, |batch|).counters[x] == batch[i].priority
    ensures HasSlot(c, InsertUpTo(c, st, batch, max, |batch|), batch[i], x)
  {
    var r, s, os := InsertUpTo(c, st, batch, max, |batch|), c.setIndex(batch[i].key), AllOffers(c, batch);
    SlotsOk(c, st, batch, max, |batch|, x);
    if x in r.pending {
      var j: nat :| j < |batch| && HasSlot(c, r, batch[j], x);
      OfferedCounts(os, s, i, j);
    } else {
      OfferedCounts(os, s, i, i);
      CountersCount(st.counters, s, x, x);
    }
  }

  /** A key of the batch whose priority no other counter or priority of its set equals is resident afterwards if and
      only if the priority is among the eight largest. */
  lemma NewKeyWins(c: Config, st: Insertion, batch: seq<Candidate>, max: nat, i: nat, top: multiset<real>)
    requires Start(c, st, batch) && |batch| <= max && i < |batch|
    requires var on := OnOffer(c, st, batch, c.setIndex(batch[i].key)); IsTop8(top, on) && on[batch[i].priority] == 1
    ensures Resident(c, InsertUpTo(c, st, batch, max, |batch|).tags, batch[i].key) <==> batch[i].priority in top
  {
    var r, s := InsertUpTo(c, st, batch, max, |batch|), c.setIndex(batch[i].key);
    TopIs(c, st, batch, max, s, top);
    if Resident(c, r.tags, batch[i].key) {
      var x := ResidentSlot(c, st, batch, max, i);
      CountersCount(r.counters, s, x, x);
    }
    if batch[i].priority in top {
      var x := CounterSlot(r.counters, s, batch[i].priority);
      OwnSlot(c, st, batch, max, i, x);
    }
  }

  /** A slot with a counter that no other counter or priority of its set equals, and that the set still has afterwards,
      was not filled. */
  lemma KeptSlot(c: Config, st: Insertion, batch: seq<Candidate>, max: nat, x: nat, y: nat)
    requires Start(c, st, batch) && x < c.numSets * 8 && y < c.numSets * 8 && y / 8 == x / 8 < c.numSets
    requires OnOffer(c, st, batch, x / 8)[st.counters[x]] == 1
    requires InsertUpTo(c, st, batch, max, |batch|).counters[y] == st.counters[x]
    ensures y == x && InsertUpTo(c, st, batch, max, |batch|).tags[x] == st.tags[x]
  {
    var r, s, os := InsertUpTo(c, st, batch, max, |batch|), x / 8, AllOffers(c, batch);
    SlotsOk(c, st, batch, max, |batch|, y);
    CountersCount(st.counters, s, x, x);
    if y in r.pending {
      var j: nat :| j < |batch| && HasSlot(c, r, batch[j], y);
      OfferedCounts(os, s, j, j);
    } else {
      CountersCount(st.counters, s, x, y);
    }
  }

  /** A resident key stays if and only if its counter is among the eight largest. */
  lemma OldKeyStays(c: Config, st: Insertion, batch: seq<Candidate>, max: nat, k: int, x: nat, top: multiset<real>)
    requires Start(c, st, batch) && |batch| <= max && Usable(c, k) && Matches(c, st.tags, k, x) && x / 8 < c.numSets
    requires var on := OnOffer(c, st, batch, x / 8); IsTop8(top, on) && on[st.counters[x]] == 1
    ensures Resident(c, InsertUpTo(c, st, batch, max, |batch|).tags, k) <==> st.counters[x] in top
  {
    var r, s := InsertUpTo(c, st, batch, max, |batch|), x / 8;
    TopIs(c, st, batch, max, s, top);
    assert Resident(c, st.tags, k);
    if Resident(c, r.tags, k) {
      var y :| 0 <= y < |r.tags| && Matches(c, r.tags, k, y);
      SlotsOk(c, st, batch, max, |batch|, y);
      assert y !in r.pending;
      MatchUnique(c, st.tags, k, x, y);
      CountersCount(r.counters, s, x, x);
    }
    if st.counters[x] in top {
      var y := CounterSlot(r.counters, s, st.counters[x]);
      KeptSlot(c, st, batch, max, x, y);
      assert Matches(c, r.tags, k, x);
    }
  }

  // ---------------------------------------------------------------------------------------------
  // The same in a run of the cache.

  /** The state of an insert before its first key. */
  ghost function Before(s: State, rate: real): Insertion {
    Insertion(s.tags, Decayed(s.counters, rate), map[])
  }

  /** What key `k` has to stay with: the priority in the batch, or the counter of its slot. */
  ghost predicate Stake(c: Config, st: Insertion, batch: seq<Candidate>, k: int, p: real)
    requires HashOk(c) && Sized(c, st.counters)
  {
    c.setIndex(k) < c.numSets &&
    ((exists i: nat :: i < |batch| && batch[i].key == k && batch[i].priority == p) ||
     (exists x: nat :: Matches(c, st.tags, k, x) && x < |st.counters| && st.counters[x] == p))
  }

  /** After an insert step exactly the winners of the batch and of the keys before it are in the map. */
  lemma StepWinners(c: Config, rate: real, s: State, batch: seq<Candidate>, max: nat, list: seq<ModifyEntry>, s': State,
                    k: int, p: real, top: multiset<real>)
    requires Inv(c, s) && Start(c, Before(s, rate), batch) && |batch| <= max && Usable(c, k)
    requires Next(c, rate, s, InsertOp(batch, max), list, s')
    requires Stake(c, Before(s, rate), batch, k, p)
    requires var on := OnOffer(c, Before(s, rate), batch, c.setIndex(k)); IsTop8(top, on) && on[p] == 1
    ensures Inv(c, s') && (k in Contents(c, s'.tags, s'.rows) <==> p in top)
  {
    InsertInv(c, rate, s, batch, max, list, s');
    ContentsKeys(c, s'.tags, s'.rows, k);
    var st := Before(s, rate);
    if i: nat :| i < |batch| && batch[i].key == k && batch[i].priority == p {
      NewKeyWins(c, st, batch, max, i, top);
    } else {
      var x: nat :| Matches(c, st.tags, k, x) && x < |st.counters| && st.counters[x] == p;
      OldKeyStays(c, st, batch, max, k, x, top);
    }
  }
}
