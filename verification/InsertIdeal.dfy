/** What an insert should keep, and when it does: every key of a set has a stake, the decayed counter of a resident key
    plus its priority in the batch, or the priority of a new one; ideally the eight largest stakes stay. The code falls
    short of that exactly if a resident key of the batch gives way before its turn and would have been among them. */
module InsertIdeal {

  import opened CacheSpec
  import opened InsertMixed
  import opened InsertOptimal

  ghost predicate Batch(c: Config, st: Insertion, batch: seq<Candidate>, max: nat, n: nat) {
    InBatch(c, st, batch, max, n) && |batch| <= max
  }

  // ---------------------------------------------------------------------------------------------
  // Stakes.

  /** What the first `n` keys of the batch add to the counter of slot `x`. */
  function Raised(c: Config, st: Insertion, batch: seq<Candidate>, x: nat, n: nat): real
    requires n <= |batch|
  {
    if n == 0 then 0.0
    else Raised(c, st, batch, x, n - 1) +
         if Matches(c, st.tags, batch[n - 1].key, x) then batch[n - 1].priority else 0.0
  }

  /** The stakes of the keys that are in set `s` before the batch, and of its empty slots. */
  ghost function OldStakes(c: Config, st: Insertion, batch: seq<Candidate>, s: nat, n: nat): (xs: seq<real>)
    requires s * 8 + 8 <= |st.counters| && n <= |batch|
    ensures |xs| == 8 && forall w :: 0 <= w < 8 ==> xs[w] == st.counters[s * 8 + w] + Raised(c, st, batch, s * 8 + w, n)
  {
    seq(8, w requires 0 <= w < 8 => st.counters[s * 8 + w] + Raised(c, st, batch, s * 8 + w, n))
  }

  /** The stakes of the new keys. */
  ghost function NewStakes(c: Config, st: Insertion, batch: seq<Candidate>, s: nat, n: nat): seq<real>
    requires n <= |batch|
  {
    if n == 0 then []
    else NewStakes(c, st, batch, s, n - 1) + if IsNew(c, st, batch[n - 1], s) then [batch[n - 1].priority] else []
  }

  predicate IsNew(c: Config, st: Insertion, a: Candidate, s: nat) {
    c.setIndex(a.key) == s && !Resident(c, st.tags, a.key)
  }

  ghost function Stakes(c: Config, st: Insertion, batch: seq<Candidate>, s: nat, n: nat): seq<real>
    requires s * 8 + 8 <= |st.counters| && n <= |batch|
  {
    OldStakes(c, st, batch, s, n) + NewStakes(c, st, batch, s, n)
  }

  /** Key `i` of the batch is resident before the batch and no longer when its turn comes. */
  ghost predicate Displaced(c: Config, st: Insertion, batch: seq<Candidate>, max: nat, i: nat) {
    Batch(c, st, batch, max, i + 1) && Resident(c, st.tags, batch[i].key) &&
    !Resident(c, At(c, st, batch, max, i).tags, batch[i].key)
  }

  ghost function OldCounter(c: Config, st: Insertion, k: int): real {
    var x := FindSlot(c, st.tags, k);
    if 0 <= x < |st.counters| then st.counters[x] else 0.0
  }

  // ---------------------------------------------------------------------------------------------
  // How one key changes the stakes.

  lemma {:induction false} NotRaised(c: Config, st: Insertion, batch: seq<Candidate>, x: nat, n: nat)
    requires n <= |batch| && forall i :: 0 <= i < n ==> !Matches(c, st.tags, batch[i].key, x)
    ensures Raised(c, st, batch, x, n) == 0.0
  {
    if n > 0 {
      NotRaised(c, st, batch, x, n - 1);
    }
  }

  /** A resident key raises the stake of its slot, which no earlier key has raised. */
  lemma OldStakesRise(c: Config, st: Insertion, batch: seq<Candidate>, max: nat, i: nat, x: nat, s: nat)
    requires Batch(c, st, batch, max, i + 1) && Matches(c, st.tags, batch[i].key, x) && x / 8 == s < c.numSets
    ensures var was := OldStakes(c, st, batch, s, i);
            && was[x - s * 8] == st.counters[x]
            && OldStakes(c, st, batch, s, i + 1) == was[x - s * 8 := st.counters[x] + batch[i].priority]
  {
    NotRaised(c, st, batch, x, i);
    var was, now := OldStakes(c, st, batch, s, i), OldStakes(c, st, batch, s, i + 1);
    forall w | 0 <= w < 8
      ensures now[w] == was[x - s * 8 := st.counters[x] + batch[i].priority][w]
    {
      if Matches(c, st.tags, batch[i].key, s * 8 + w) {
        MatchUnique(c, st.tags, batch[i].key, x, s * 8 + w);
      }
    }
  }

  lemma OldStakesStay(c: Config, st: Insertion, batch: seq<Candidate>, i: nat, s: nat)
    requires s * 8 + 8 <= |st.counters| && i < |batch|
    requires forall x: nat :: Matches(c, st.tags, batch[i].key, x) ==> x / 8 != s
    ensures OldStakes(c, st, batch, s, i + 1) == OldStakes(c, st, batch, s, i)
  {
    forall w | 0 <= w < 8
      ensures OldStakes(c, st, batch, s, i + 1)[w] == OldStakes(c, st, batch, s, i)[w]
    {
      assert (s * 8 + w) / 8 == s;
    }
  }

  /** How the number of stakes above a threshold changes with key `i`. */
  ghost function StakeChange(c: Config, st: Insertion, a: Candidate, s: nat, v: real, incl: bool): int {
    if c.setIndex(a.key) != s then 0
    else if !Resident(c, st.tags, a.key) then One(Above(a.priority, v, incl))
    else
      One(Above(OldCounter(c, st, a.key) + a.priority, v, incl)) - One(Above(OldCounter(c, st, a.key), v, incl))
  }

  lemma OldCounterIs(c: Config, st: Insertion, k: int, x: nat)
    requires HashOk(c) && TagsOk(c, st.tags) && Sized(c, st.counters) && Usable(c, k) && Matches(c, st.tags, k, x)
    ensures OldCounter(c, st, k) == st.counters[x]
  {
    MatchUnique(c, st.tags, k, x, FindSlot(c, st.tags, k));
  }

  lemma OldStakesCount(c: Config, st: Insertion, batch: seq<Candidate>, max: nat, i: nat, s: nat, v: real, incl: bool)
    requires Batch(c, st, batch, max, i + 1) && s < c.numSets && c.setIndex(batch[i].key) == s
    requires Resident(c, st.tags, batch[i].key)
    ensures Count(OldStakes(c, st, batch, s, i + 1), v, incl) ==
            Count(OldStakes(c, st, batch, s, i), v, incl) + StakeChange(c, st, batch[i], s, v, incl)
  {
    var x: nat :| x < |st.tags| && Matches(c, st.tags, batch[i].key, x);
    var was, w, q := OldStakes(c, st, batch, s, i), x - s * 8, st.counters[x] + batch[i].priority;
    OldCounterIs(c, st, batch[i].key, x);
    OldStakesRise(c, st, batch, max, i, x, s);
    CountChange(was, w, q, v, incl);
  }

  lemma StakesNext(c: Config, st: Insertion, batch: seq<Candidate>, max: nat, i: nat, s: nat, v: real, incl: bool)
    requires Batch(c, st, batch, max, i + 1) && s < c.numSets
    ensures Count(Stakes(c, st, batch, s, i + 1), v, incl) ==
            Count(Stakes(c, st, batch, s, i), v, incl) + StakeChange(c, st, batch[i], s, v, incl)
  {
    CountConcat(OldStakes(c, st, batch, s, i), NewStakes(c, st, batch, s, i), v, incl);
    CountConcat(OldStakes(c, st, batch, s, i + 1), NewStakes(c, st, batch, s, i + 1), v, incl);
    if IsNew(c, st, batch[i], s) {
      OldStakesStay(c, st, batch, i, s);
      CountPush(NewStakes(c, st, batch, s, i), batch[i].priority, v, incl);
    } else {
      assert NewStakes(c, st, batch, s, i + 1) == NewStakes(c, st, batch, s, i);
      if c.setIndex(batch[i].key) == s {
        OldStakesCount(c, st, batch, max, i, s, v, incl);
      } else {
        OldStakesStay(c, st, batch, i, s);
      }
    }
  }

  // ---------------------------------------------------------------------------------------------
  // How it changes what is held and lost.

  ghost function Claims(c: Config, st: Insertion, batch: seq<Candidate>, max: nat, s: nat, n: nat): seq<real>
    requires Batch(c, st, batch, max, n) && s < c.numSets
  {
    HeldIn(At(c, st, batch, max, n), s) + Lost(c, st, batch, max, s, n)
  }

  lemma Reached(c: Config, st: Insertion, batch: seq<Candidate>, max: nat, i: nat)
    requires Batch(c, st, batch, max, i + 1)
    ensures |At(c, st, batch, max, i).pending| < max
    ensures At(c, st, batch, max, i + 1) == InsertOne(c, At(c, st, batch, max, i), batch[i])
  {
    NeverCutOff(c, st, batch, max, i);
    AtNext(c, st, batch, max, i);
  }

  /** A key leaves the counters of other sets alone. */
  lemma OtherSetStays(c: Config, tags0: seq<int>, r: Insertion, a: Candidate, s: nat)
    requires HashOk(c) && InsertionOk(c, tags0, r) && Usable(c, a.key) && s < c.numSets && c.setIndex(a.key) != s
    ensures HeldIn(InsertOne(c, r, a), s) == HeldIn(r, s)
  {
    if x :| 0 <= x < |r.tags| && Matches(c, r.tags, a.key, x) {
      ResidentGains(c, r, a, x);
    } else {
      assert !Resident(c, r.tags, a.key);
      FirstMinExists(r.counters, c.setIndex(a.key) * 8, 8);
    }
  }

  lemma CountMoves(held: seq<real>, held': seq<real>, p: real, lostAt: seq<real>, lost: seq<real>, v: real, incl: bool)
    requires Moves(held, held', p, lostAt) && |lostAt| == 1
    ensures Count(held' + (lost + lostAt), v, incl) == Count(held + lost, v, incl) + One(Above(p, v, incl))
  {
    CountConcat(held, lost, v, incl);
    CountConcat(held', lost + lostAt, v, incl);
    CountPush(lost, lostAt[0], v, incl);
    assert lost + lostAt == lost + [lostAt[0]];
    if i: nat :| Replaces(held, held', i, p) && lostAt == [held[i]] {
      CountChange(held, i, p, v, incl);
    }
  }

  /** A key that is not resident at its turn adds a claim of its priority. */
  lemma MissNext(c: Config, st: Insertion, batch: seq<Candidate>, max: nat, i: nat, s: nat, v: real, incl: bool)
    requires Batch(c, st, batch, max, i + 1) && s < c.numSets && c.setIndex(batch[i].key) == s
    requires !Resident(c, At(c, st, batch, max, i).tags, batch[i].key)
    ensures Count(Claims(c, st, batch, max, s, i + 1), v, incl) ==
            Count(Claims(c, st, batch, max, s, i), v, incl) + One(Above(batch[i].priority, v, incl))
  {
    Reached(c, st, batch, max, i);
    NthMoves(c, st, batch, max, i, s);
    var r, r' := At(c, st, batch, max, i), At(c, st, batch, max, i + 1);
    CountMoves(HeldIn(r, s), HeldIn(r', s), batch[i].priority, LostAt(c, r, r', batch[i], max, s),
               Lost(c, st, batch, max, s, i), v, incl);
  }

  lemma OtherNext(c: Config, st: Insertion, batch: seq<Candidate>, max: nat, i: nat, s: nat)
    requires Batch(c, st, batch, max, i + 1) && s < c.numSets && c.setIndex(batch[i].key) != s
    ensures Claims(c, st, batch, max, s, i + 1) == Claims(c, st, batch, max, s, i)
  {
    Reached(c, st, batch, max, i);
    AtOk(c, st, batch, max, i);
    OtherSetStays(c, st.tags, At(c, st, batch, max, i), batch[i], s);
    assert Lost(c, st, batch, max, s, i + 1) == Lost(c, st, batch, max, s, i) + [];
  }

  lemma {:induction false} NoGain(c: Config, st: Insertion, batch: seq<Candidate>, max: nat, k: int, n: nat)
    requires InsertionSized(c, st) && n <= |batch| && forall i :: 0 <= i < n ==> batch[i].key != k
    ensures Gain(c, st, batch, max, k, n) == 0.0
  {
    if n > 0 {
      NoGain(c, st, batch, max, k, n - 1);
    }
  }

  /** A key that is resident at its turn is still in the slot where it was before the batch. */
  lemma StillThere(c: Config, st: Insertion, batch: seq<Candidate>, max: nat, i: nat, y: nat)
    requires Batch(c, st, batch, max, i + 1) && Matches(c, At(c, st, batch, max, i).tags, batch[i].key, y)
    ensures Matches(c, st.tags, batch[i].key, y) && At(c, st, batch, max, i).counters[y] == st.counters[y]
  {
    var r, pre := At(c, st, batch, max, i), batch[..i];
    PrefixSame(c, st, batch, max, i, i);
    InsertUpToOk(c, st, pre, max, i);
    assert y !in r.pending;
    NoGain(c, st, batch, max, batch[i].key, i);
    KeptGains(c, st, batch, max, batch[i].key, y, i);
  }

  lemma RaisesHeld(c: Config, r: Insertion, a: Candidate, y: nat, s: nat)
    requires HashOk(c) && TagsOk(c, r.tags) && Sized(c, r.counters) && Usable(c, a.key) && Matches(c, r.tags, a.key, y)
    requires s < c.numSets && c.setIndex(a.key) == s
    ensures s * 8 <= y < s * 8 + 8 <= |InsertOne(c, r, a).counters| && HeldIn(r, s)[y - s * 8] == r.counters[y]
    ensures HeldIn(InsertOne(c, r, a), s) == HeldIn(r, s)[y - s * 8 := r.counters[y] + a.priority]
  {
    ResidentGains(c, r, a, y);
  }

  lemma HitHeld(c: Config, st: Insertion, batch: seq<Candidate>, max: nat, i: nat, y: nat, s: nat)
    requires Batch(c, st, batch, max, i + 1) && s < c.numSets && c.setIndex(batch[i].key) == s
    requires Matches(c, At(c, st, batch, max, i).tags, batch[i].key, y)
    ensures Matches(c, st.tags, batch[i].key, y) && OldCounter(c, st, batch[i].key) == st.counters[y]
    ensures var held := HeldIn(At(c, st, batch, max, i), s);
            && held[y - s * 8] == st.counters[y]
            && HeldIn(At(c, st, batch, max, i + 1), s) == held[y - s * 8 := st.counters[y] + batch[i].priority]
  {
    StillThere(c, st, batch, max, i, y);
    MatchUnique(c, st.tags, batch[i].key, y, FindSlot(c, st.tags, batch[i].key));
    Reached(c, st, batch, max, i);
    AtOk(c, st, batch, max, i);
    RaisesHeld(c, At(c, st, batch, max, i), batch[i], y, s);
  }

  lemma RaiseCount(held: seq<real>, lost: seq<real>, i: nat, x: real, v: real, incl: bool)
    requires i < |held|
    ensures Count(held[i := x] + lost, v, incl) ==
            Count(held + lost, v, incl) + One(Above(x, v, incl)) - One(Above(held[i], v, incl))
  {
    CountChange(held, i, x, v, incl);
    CountConcat(held, lost, v, incl);
    CountConcat(held[i := x], lost, v, incl);
  }

  lemma HitNext(c: Config, st: Insertion, batch: seq<Candidate>, max: nat, i: nat, s: nat, v: real, incl: bool)
    requires Batch(c, st, batch, max, i + 1) && s < c.numSets && c.setIndex(batch[i].key) == s
    requires Resident(c, At(c, st, batch, max, i).tags, batch[i].key)
    ensures Resident(c, st.tags, batch[i].key)
    ensures Count(Claims(c, st, batch, max, s, i + 1), v, incl) ==
            Count(Claims(c, st, batch, max, s, i), v, incl) + StakeChange(c, st, batch[i], s, v, incl)
  {
    var r, lost := At(c, st, batch, max, i), Lost(c, st, batch, max, s, i);
    var y: nat :| y < |r.tags| && Matches(c, r.tags, batch[i].key, y);
    HitHeld(c, st, batch, max, i, y, s);
    RaiseCount(HeldIn(r, s), lost, y - s * 8, st.counters[y] + batch[i].priority, v, incl);
    assert Lost(c, st, batch, max, s, i + 1) == lost + [] == lost;
  }

  // ---------------------------------------------------------------------------------------------
  // Claims and stakes differ by the displaced keys.

  /** For a displaced key there are two claims, its old counter and its priority, in place of one stake. */
  ghost function ExtraAt(c: Config, st: Insertion, batch: seq<Candidate>, max: nat, s: nat, i: nat, v: real,
                         incl: bool): int
    requires i < |batch|
  {
    if c.setIndex(batch[i].key) == s && Displaced(c, st, batch, max, i)
    then One(Above(batch[i].priority, v, incl)) - StakeChange(c, st, batch[i], s, v, incl) else 0
  }

  ghost function Extra(c: Config, st: Insertion, batch: seq<Candidate>, max: nat, s: nat, n: nat, v: real,
                       incl: bool): int
    requires n <= |batch|
  {
    if n == 0 then 0
    else Extra(c, st, batch, max, s, n - 1, v, incl) + ExtraAt(c, st, batch, max, s, n - 1, v, incl)
  }

  lemma ClaimsNext(c: Config, st: Insertion, batch: seq<Candidate>, max: nat, i: nat, s: nat, v: real, incl: bool)
    requires Batch(c, st, batch, max, i + 1) && s < c.numSets
    ensures Count(Claims(c, st, batch, max, s, i + 1), v, incl) ==
            Count(Claims(c, st, batch, max, s, i), v, incl) + StakeChange(c, st, batch[i], s, v, incl) +
            ExtraAt(c, st, batch, max, s, i, v, incl)
  {
    if c.setIndex(batch[i].key) != s {
      OtherNext(c, st, batch, max, i, s);
    } else if Resident(c, At(c, st, batch, max, i).tags, batch[i].key) {
      HitNext(c, st, batch, max, i, s, v, incl);
    } else {
      MissNext(c, st, batch, max, i, s, v, incl);
    }
  }

  /** Above every threshold there are as many claims as stakes, apart from the displaced keys. */
  ghost predicate Balanced(c: Config, st: Insertion, batch: seq<Candidate>, max: nat, s: nat, n: nat, v: real,
                           incl: bool)
    requires Batch(c, st, batch, max, n) && s < c.numSets
  {
    Count(Claims(c, st, batch, max, s, n), v, incl) ==
    Count(Stakes(c, st, batch, s, n), v, incl) + Extra(c, st, batch, max, s, n, v, incl)
  }

  lemma BalanceStart(c: Config, st: Insertion, batch: seq<Candidate>, max: nat, s: nat, v: real, incl: bool)
    requires Batch(c, st, batch, max, 0) && s < c.numSets
    ensures Balanced(c, st, batch, max, s, 0, v, incl)
  {
    assert HeldIn(st, s) == OldStakes(c, st, batch, s, 0);
  }

  lemma BalanceNext(c: Config, st: Insertion, batch: seq<Candidate>, max: nat, s: nat, i: nat, v: real, incl: bool)
    requires Batch(c, st, batch, max, i + 1) && s < c.numSets && Balanced(c, st, batch, max, s, i, v, incl)
    ensures Balanced(c, st, batch, max, s, i + 1, v, incl)
  {
    StakesNext(c, st, batch, max, i, s, v, incl);
    ClaimsNext(c, st, batch, max, i, s, v, incl);
  }

  lemma Balance(c: Config, st: Insertion, batch: seq<Candidate>, max: nat, s: nat, n: nat, v: real, incl: bool)
    requires Batch(c, st, batch, max, n) && s < c.numSets
    ensures Balanced(c, st, batch, max, s, n, v, incl)
  {
    var i := 0;
    BalanceStart(c, st, batch, max, s, v, incl);
    while i < n
      invariant i <= n && Balanced(c, st, batch, max, s, i, v, incl)
    {
      BalanceNext(c, st, batch, max, s, i, v, incl);
      i := i + 1;
    }
  }

  // ---------------------------------------------------------------------------------------------
  // A displaced key has lost to everything the set holds.

  lemma OneNotLower(c: Config, tags0: seq<int>, r: Insertion, a: Candidate, x: nat)
    requires HashOk(c) && InsertionOk(c, tags0, r) && Usable(c, a.key) && a.priority >= 0.0 && x < |r.tags|
    requires x !in InsertOne(c, r, a).pending
    ensures InsertOne(c, r, a).counters[x] >= r.counters[x]
  {
    if y :| 0 <= y < |r.tags| && Matches(c, r.tags, a.key, y) {
      ResidentGains(c, r, a, y);
    } else {
      assert !Resident(c, r.tags, a.key);
      MissAt(c, r, a, x);
    }
  }

  /** A slot that was not refilled has at least the counter it started with. */
  lemma {:induction false} NotLower(c: Config, st: Insertion, batch: seq<Candidate>, max: nat, n: nat, x: nat)
    requires Batch(c, st, batch, max, n) && x < |st.tags| && x !in At(c, st, batch, max, n).pending
    ensures At(c, st, batch, max, n).counters[x] >= st.counters[x]
  {
    if n > 0 {
      Reached(c, st, batch, max, n - 1);
      AtOk(c, st, batch, max, n - 1);
      InsertOneOk(c, st.tags, At(c, st, batch, max, n - 1), batch[n - 1]);
      NotLower(c, st, batch, max, n - 1, x);
      OneNotLower(c, st.tags, At(c, st, batch, max, n - 1), batch[n - 1], x);
    }
  }

  /** A slot is refilled only if its counter is the least of the set. */
  lemma RefilledIsLeast(c: Config, tags0: seq<int>, r: Insertion, a: Candidate, x: nat)
    requires HashOk(c) && InsertionOk(c, tags0, r) && Usable(c, a.key)
    requires x !in r.pending && x in InsertOne(c, r, a).pending
    ensures x < |r.tags| && x / 8 < c.numSets && NoneAbove([r.counters[x]], HeldIn(InsertOne(c, r, a), x / 8))
  {
    if y :| 0 <= y < |r.tags| && Matches(c, r.tags, a.key, y) {
      ResidentGains(c, r, a, y);
    } else {
      assert !Resident(c, r.tags, a.key);
      FirstMinExists(r.counters, c.setIndex(a.key) * 8, 8);
    }
  }

  /** What is below everything in a set stays so. */
  lemma StaysBelow(c: Config, st: Insertion, batch: seq<Candidate>, max: nat, s: nat, i: nat, n: nat, v: real)
    requires Batch(c, st, batch, max, n) && i <= n && s < c.numSets
    requires NoneAbove([v], HeldIn(At(c, st, batch, max, i), s))
    ensures NoneAbove([v], HeldIn(At(c, st, batch, max, n), s))
  {
    var j := i;
    while j < n
      invariant i <= j <= n && NoneAbove([v], HeldIn(At(c, st, batch, max, j), s))
    {
      BelowNext(c, st, batch, max, s, j, v);
      j := j + 1;
    }
  }

  lemma BelowNext(c: Config, st: Insertion, batch: seq<Candidate>, max: nat, s: nat, i: nat, v: real)
    requires Batch(c, st, batch, max, i + 1) && s < c.numSets && NoneAbove([v], HeldIn(At(c, st, batch, max, i), s))
    ensures NoneAbove([v], HeldIn(At(c, st, batch, max, i + 1), s))
  {
    NthMoves(c, st, batch, max, i, s);
    var r, r' := At(c, st, batch, max, i), At(c, st, batch, max, i + 1);
    var lostAt := LostAt(c, r, r', batch[i], max, s);
    MoveKeeps(HeldIn(r, s), HeldIn(r', s), batch[i].priority, lostAt, [v]);
    assert ([v] + lostAt)[0] == v;
  }

  lemma {:induction false} PendingBelow(c: Config, st: Insertion, batch: seq<Candidate>, max: nat, n: nat, x: nat)
    requires Batch(c, st, batch, max, n) && x < |st.tags| && x / 8 < c.numSets && x in At(c, st, batch, max, n).pending
    ensures NoneAbove([st.counters[x]], HeldIn(At(c, st, batch, max, n), x / 8))
  {
    var i := n - 1;
    Reached(c, st, batch, max, i);
    AtOk(c, st, batch, max, i);
    if x in At(c, st, batch, max, i).pending {
      PendingBelow(c, st, batch, max, i, x);
      BelowNext(c, st, batch, max, x / 8, i, st.counters[x]);
    } else {
      RefilledIsLeast(c, st.tags, At(c, st, batch, max, i), batch[i], x);
      NotLower(c, st, batch, max, i, x);
    }
  }

  lemma DisplacedBelow(c: Config, st: Insertion, batch: seq<Candidate>, max: nat, i: nat)
    requires Displaced(c, st, batch, max, i)
    ensures c.setIndex(batch[i].key) < c.numSets && OldCounter(c, st, batch[i].key) >= 0.0
    ensures NoneAbove([OldCounter(c, st, batch[i].key)],
                      HeldIn(At(c, st, batch, max, |batch|), c.setIndex(batch[i].key)))
  {
    var k, s := batch[i].key, c.setIndex(batch[i].key);
    var x: nat :| x < |st.tags| && Matches(c, st.tags, k, x);
    OldCounterIs(c, st, k, x);
    if x !in At(c, st, batch, max, i).pending {
      KeptMatches(c, st, batch, max, k, x, i);
    }
    PendingBelow(c, st, batch, max, i, x);
    StaysBelow(c, st, batch, max, s, i, |batch|, st.counters[x]);
  }

  // ---------------------------------------------------------------------------------------------
  // When the eight largest stakes stay.

  ghost function HeldAfter(c: Config, st: Insertion, batch: seq<Candidate>, max: nat, s: nat): (h: seq<real>)
    requires Batch(c, st, batch, max, |batch|) && s < c.numSets
    ensures |h| == 8
  {
    HeldIn(At(c, st, batch, max, |batch|), s)
  }

  /** Key `i` is displaced, had something to lose, and its stake is above something that set `s` ends with. */
  ghost predicate Wronged(c: Config, st: Insertion, batch: seq<Candidate>, max: nat, s: nat, i: nat)
    requires Batch(c, st, batch, max, |batch|) && s < c.numSets && i < |batch|
  {
    && c.setIndex(batch[i].key) == s && Displaced(c, st, batch, max, i) && OldCounter(c, st, batch[i].key) > 0.0
    && !NoneAbove([OldCounter(c, st, batch[i].key) + batch[i].priority], HeldAfter(c, st, batch, max, s))
  }

  ghost predicate NoneWronged(c: Config, st: Insertion, batch: seq<Candidate>, max: nat, s: nat)
    requires Batch(c, st, batch, max, |batch|) && s < c.numSets
  {
    forall i: nat :: i < |batch| ==> !Wronged(c, st, batch, max, s, i)
  }

  /** At a threshold that some held counter is not above, a displaced key that is not wronged makes no difference. */
  lemma NoExtra(c: Config, st: Insertion, batch: seq<Candidate>, max: nat, s: nat, i: nat, j: nat, v: real, incl: bool)
    requires Batch(c, st, batch, max, |batch|) && s < c.numSets && i < |batch| && !Wronged(c, st, batch, max, s, i)
    requires j < 8 && !Above(HeldAfter(c, st, batch, max, s)[j], v, incl)
    ensures ExtraAt(c, st, batch, max, s, i, v, incl) == 0
  {
    if c.setIndex(batch[i].key) == s && Displaced(c, st, batch, max, i) {
      DisplacedBelow(c, st, batch, max, i);
      var old_, held := OldCounter(c, st, batch[i].key), HeldAfter(c, st, batch, max, s);
      assert [old_][0] <= held[j];
      if old_ > 0.0 {
        assert [old_ + batch[i].priority][0] <= held[j];
      }
    }
  }

  /** Counting those equal to the least held counter as well, it makes no more. */
  lemma NoMoreExtra(c: Config, st: Insertion, batch: seq<Candidate>, max: nat, s: nat, i: nat, j: nat)
    requires Batch(c, st, batch, max, |batch|) && s < c.numSets && i < |batch| && !Wronged(c, st, batch, max, s, i)
    requires j < 8 && HeldAfter(c, st, batch, max, s)[j] > 0.0
    ensures ExtraAt(c, st, batch, max, s, i, HeldAfter(c, st, batch, max, s)[j], true) <= 0
  {
    if c.setIndex(batch[i].key) == s && Displaced(c, st, batch, max, i) {
      DisplacedBelow(c, st, batch, max, i);
      var old_, held := OldCounter(c, st, batch[i].key), HeldAfter(c, st, batch, max, s);
      assert [old_][0] <= held[j];
      if old_ > 0.0 {
        assert [old_ + batch[i].priority][0] <= held[j];
      }
    }
  }

  /** Strictly above a threshold that is not below some held counter, a displaced key has at most one claim, and then a
      stake. */
  lemma LessExtra(c: Config, st: Insertion, batch: seq<Candidate>, max: nat, s: nat, i: nat, j: nat, v: real)
    requires Batch(c, st, batch, max, |batch|) && s < c.numSets && i < |batch|
    requires j < 8 && HeldAfter(c, st, batch, max, s)[j] <= v
    ensures ExtraAt(c, st, batch, max, s, i, v, false) <= 0
    ensures (&& c.setIndex(batch[i].key) == s && Displaced(c, st, batch, max, i)
             && batch[i].priority <= v < OldCounter(c, st, batch[i].key) + batch[i].priority) ==>
              ExtraAt(c, st, batch, max, s, i, v, false) < 0
  {
    if c.setIndex(batch[i].key) == s && Displaced(c, st, batch, max, i) {
      DisplacedBelow(c, st, batch, max, i);
      assert [OldCounter(c, st, batch[i].key)][0] <= HeldAfter(c, st, batch, max, s)[j];
    }
  }

  lemma {:induction false} ExtraSum(c: Config, st: Insertion, batch: seq<Candidate>, max: nat, s: nat, n: nat, v: real,
                                    incl: bool)
    requires n <= |batch|
    ensures (forall i: nat :: i < n ==> ExtraAt(c, st, batch, max, s, i, v, incl) == 0) ==>
              Extra(c, st, batch, max, s, n, v, incl) == 0
    ensures (forall i: nat :: i < n ==> ExtraAt(c, st, batch, max, s, i, v, incl) <= 0) ==>
              Extra(c, st, batch, max, s, n, v, incl) <= 0
  {
    if n > 0 {
      ExtraSum(c, st, batch, max, s, n - 1, v, incl);
    }
  }

  lemma {:induction false} ExtraNegative(c: Config, st: Insertion, batch: seq<Candidate>, max: nat, s: nat, n: nat,
                                         v: real, incl: bool, k: nat)
    requires k < n <= |batch| && ExtraAt(c, st, batch, max, s, k, v, incl) < 0
    requires forall i: nat :: i < n ==> ExtraAt(c, st, batch, max, s, i, v, incl) <= 0
    ensures Extra(c, st, batch, max, s, n, v, incl) < 0
  {
    if k == n - 1 {
      ExtraSum(c, st, batch, max, s, n - 1, v, incl);
    } else {
      ExtraNegative(c, st, batch, max, s, n - 1, v, incl, k);
    }
  }

  /** Above each threshold, what a set holds against the claims. */
  lemma HeldCount(c: Config, st: Insertion, batch: seq<Candidate>, max: nat, s: nat, v: real, incl: bool)
    requires Batch(c, st, batch, max, |batch|) && s < c.numSets
    ensures var n := Count(Claims(c, st, batch, max, s, |batch|), v, incl);
            Count(HeldAfter(c, st, batch, max, s), v, incl) == if n < 8 then n else 8
    ensures Balanced(c, st, batch, max, s, |batch|, v, incl)
  {
    MixedKeepsTop(c, st, batch, max, s);
    Balance(c, st, batch, max, s, |batch|, v, incl);
  }

  lemma SomeNotAbove(c: Config, st: Insertion, batch: seq<Candidate>, max: nat, s: nat, j: nat, v: real, incl: bool)
    requires Batch(c, st, batch, max, |batch|) && s < c.numSets && NoneWronged(c, st, batch, max, s)
    requires j < 8 && !Above(HeldAfter(c, st, batch, max, s)[j], v, incl)
    ensures Count(Claims(c, st, batch, max, s, |batch|), v, incl) == Count(Stakes(c, st, batch, s, |batch|), v, incl)
  {
    forall i: nat | i < |batch|
      ensures ExtraAt(c, st, batch, max, s, i, v, incl) == 0
    {
      NoExtra(c, st, batch, max, s, i, j, v, incl);
    }
    ExtraSum(c, st, batch, max, s, |batch|, v, incl);
    Balance(c, st, batch, max, s, |batch|, v, incl);
  }

  lemma {:induction false} RaisedNot(c: Config, st: Insertion, batch: seq<Candidate>, max: nat, x: nat, n: nat)
    requires Batch(c, st, batch, max, n)
    ensures Raised(c, st, batch, x, n) >= 0.0
  {
    if n > 0 {
      RaisedNot(c, st, batch, max, x, n - 1);
    }
  }

  lemma AllStakesAbove(c: Config, st: Insertion, batch: seq<Candidate>, max: nat, s: nat, v: real, incl: bool)
    requires Batch(c, st, batch, max, |batch|) && s < c.numSets && Above(0.0, v, incl)
    ensures Count(Stakes(c, st, batch, s, |batch|), v, incl) >= 8
  {
    var xs := OldStakes(c, st, batch, s, |batch|);
    forall w | 0 <= w < 8
      ensures xs[w] >= 0.0
    {
      RaisedNot(c, st, batch, max, s * 8 + w, |batch|);
    }
    CountBound(xs, v, incl);
    CountConcat(xs, NewStakes(c, st, batch, s, |batch|), v, incl);
  }

  /** If all that is held is above a threshold, so are eight stakes. */
  lemma AllAbove(c: Config, st: Insertion, batch: seq<Candidate>, max: nat, s: nat, v: real, incl: bool)
    requires Batch(c, st, batch, max, |batch|) && s < c.numSets && NoneWronged(c, st, batch, max, s)
    requires forall j :: 0 <= j < 8 ==> Above(HeldAfter(c, st, batch, max, s)[j], v, incl)
    ensures Count(Stakes(c, st, batch, s, |batch|), v, incl) >= 8
  {
    var held, xs := HeldAfter(c, st, batch, max, s), Stakes(c, st, batch, s, |batch|);
    FirstMinExists(held, 0, 8);
    var j: nat :| FirstMin(held, 0, 8, j);
    if held[j] <= 0.0 {
      AllStakesAbove(c, st, batch, max, s, v, incl);
    } else {
      forall i: nat | i < |batch|
        ensures ExtraAt(c, st, batch, max, s, i, held[j], true) <= 0
      {
        NoMoreExtra(c, st, batch, max, s, i, j);
      }
      ExtraSum(c, st, batch, max, s, |batch|, held[j], true);
      HeldCount(c, st, batch, max, s, held[j], true);
      CountBound(held, held[j], true);
      CountMono(xs, v, incl, held[j], true);
    }
  }

  lemma NoneWrongedIsIdeal(c: Config, st: Insertion, batch: seq<Candidate>, max: nat, s: nat)
    requires Batch(c, st, batch, max, |batch|) && s < c.numSets && NoneWronged(c, st, batch, max, s)
    ensures EightLargest(HeldAfter(c, st, batch, max, s), Stakes(c, st, batch, s, |batch|))
  {
    var held, xs := HeldAfter(c, st, batch, max, s), Stakes(c, st, batch, s, |batch|);
    forall v, incl
      ensures Count(held, v, incl) == if Count(xs, v, incl) < 8 then Count(xs, v, incl) else 8
    {
      CountBound(held, v, incl);
      if j: nat :| j < 8 && !Above(held[j], v, incl) {
        SomeNotAbove(c, st, batch, max, s, j, v, incl);
        HeldCount(c, st, batch, max, s, v, incl);
      } else {
        AllAbove(c, st, batch, max, s, v, incl);
      }
    }
  }

  lemma FewerClaims(c: Config, st: Insertion, batch: seq<Candidate>, max: nat, s: nat, i: nat, j: nat, v: real)
    requires Batch(c, st, batch, max, |batch|) && s < c.numSets && i < |batch| && Wronged(c, st, batch, max, s, i)
    requires j < 8 && HeldAfter(c, st, batch, max, s)[j] <= v
    requires batch[i].priority <= v < OldCounter(c, st, batch[i].key) + batch[i].priority
    ensures Count(Claims(c, st, batch, max, s, |batch|), v, false) < Count(Stakes(c, st, batch, s, |batch|), v, false)
  {
    forall k: nat | k < |batch|
      ensures ExtraAt(c, st, batch, max, s, k, v, false) <= 0 &&
              (k == i ==> ExtraAt(c, st, batch, max, s, k, v, false) < 0)
    {
      LessExtra(c, st, batch, max, s, k, j, v);
    }
    ExtraNegative(c, st, batch, max, s, |batch|, v, false, i);
    Balance(c, st, batch, max, s, |batch|, v, false);
  }

  lemma WrongedIsNotIdeal(c: Config, st: Insertion, batch: seq<Candidate>, max: nat, s: nat, i: nat)
    requires Batch(c, st, batch, max, |batch|) && s < c.numSets && i < |batch| && Wronged(c, st, batch, max, s, i)
    ensures !EightLargest(HeldAfter(c, st, batch, max, s), Stakes(c, st, batch, s, |batch|))
  {
    var held, p := HeldAfter(c, st, batch, max, s), batch[i].priority;
    var q := OldCounter(c, st, batch[i].key) + p;
    var j: nat :| j < 8 && held[j] < [q][0];
    var v := if p >= held[j] then p else held[j];
    FewerClaims(c, st, batch, max, s, i, j, v);
    HeldCount(c, st, batch, max, s, v, false);
    CountBound(held, v, false);
    assert !Above(held[j], v, false);
  }

  /** An insert within the update limit leaves a set with the eight largest stakes if and only if no resident key of the
      batch was displaced before its turn although its stake is above something the set ends with. */
  lemma IdealIff(c: Config, st: Insertion, batch: seq<Candidate>, max: nat, s: nat)
    requires Batch(c, st, batch, max, |batch|) && s < c.numSets
    ensures EightLargest(HeldAfter(c, st, batch, max, s), Stakes(c, st, batch, s, |batch|)) <==>
            NoneWronged(c, st, batch, max, s)
  {
    if NoneWronged(c, st, batch, max, s) {
      NoneWrongedIsIdeal(c, st, batch, max, s);
    } else {
      var i: nat :| i < |batch| && Wronged(c, st, batch, max, s, i);
      WrongedIsNotIdeal(c, st, batch, max, s, i);
    }
  }
}
