/** What can be told before an insert: from the counters and the batch alone, without running it, which resident keys of
    the batch give way before their turn and whether the eight largest stakes stay. Only the order among equal counters,
    which depends on the ways, is not in it. */
module InsertForecast {

  import opened CacheSpec
  import opened InsertIdeal
  import opened InsertMixed
  import opened InsertStakes

  // ---------------------------------------------------------------------------------------------
  // The forecast.

  /** The number of claims on set `s` above a threshold after `n` keys of the batch. A new key, and a resident one that
      has given way, claims a place with its priority; another resident key raises its claim. */
  ghost function Forecast(c: Config, st: Insertion, batch: seq<Candidate>, s: nat, n: nat, v: real, incl: bool): int
    requires s * 8 + 8 <= |st.counters| && n <= |batch|
    decreases n, 0
  {
    if n == 0 then Count(HeldIn(st, s), v, incl)
    else
      var a := batch[n - 1];
      Forecast(c, st, batch, s, n - 1, v, incl) +
      if c.setIndex(a.key) != s then 0
      else if !Resident(c, st.tags, a.key) || GivesWay(c, st, batch, s, n - 1) then One(Above(a.priority, v, incl))
      else
        One(Above(OldCounter(c, st, a.key) + a.priority, v, incl)) - One(Above(OldCounter(c, st, a.key), v, incl))
  }

  /** Eight claims are above the counter of key `i` before its turn comes. */
  ghost predicate GivesWay(c: Config, st: Insertion, batch: seq<Candidate>, s: nat, i: nat)
    requires s * 8 + 8 <= |st.counters| && i < |batch|
    decreases i, 1
  {
    && c.setIndex(batch[i].key) == s && Resident(c, st.tags, batch[i].key)
    && Forecast(c, st, batch, s, i, OldCounter(c, st, batch[i].key), false) >= 8
  }

  /** No other claim equals the counter of key `i` when its turn comes. */
  ghost predicate Untied(c: Config, st: Insertion, batch: seq<Candidate>, s: nat, i: nat)
    requires s * 8 + 8 <= |st.counters| && i < |batch|
  {
    c.setIndex(batch[i].key) == s && Resident(c, st.tags, batch[i].key) ==>
      var old_ := OldCounter(c, st, batch[i].key);
      Forecast(c, st, batch, s, i, old_, true) - Forecast(c, st, batch, s, i, old_, false) == 1
  }

  /** Key `i` gives way with something to lose, and fewer than eight claims reach its stake in the end. */
  ghost predicate Shortchanged(c: Config, st: Insertion, batch: seq<Candidate>, s: nat, i: nat)
    requires s * 8 + 8 <= |st.counters| && i < |batch|
  {
    var old_ := OldCounter(c, st, batch[i].key);
    && GivesWay(c, st, batch, s, i) && old_ > 0.0
    && Forecast(c, st, batch, s, |batch|, old_ + batch[i].priority, true) < 8
  }

  // ---------------------------------------------------------------------------------------------
  // One key.

  /** A counter that is replaced is among those lost. */
  lemma LostOne(c: Config, tags0: seq<int>, r: Insertion, a: Candidate, max: nat, s: nat, x: nat)
    requires HashOk(c) && InsertionOk(c, tags0, r) && Usable(c, a.key) && |r.pending| < max && s < c.numSets
    requires s * 8 <= x < s * 8 + 8 && x !in r.pending && x in InsertOne(c, r, a).pending
    ensures InsertionSized(c, InsertOne(c, r, a)) && LostAt(c, r, InsertOne(c, r, a), a, max, s) == [r.counters[x]]
  {
    var r' := InsertOne(c, r, a);
    InsertOneOk(c, tags0, r, a);
    PlacedStep(c, tags0, r, a, x);
    forall y | 0 <= y < |r'.tags| && Matches(c, r'.tags, a.key, y)
      ensures y == x
    {
      MatchUnique(c, r'.tags, a.key, x, y);
    }
  }

  lemma {:induction false} LostOld(c: Config, st: Insertion, batch: seq<Candidate>, max: nat, s: nat, n: nat, x: nat)
    requires Batch(c, st, batch, max, n) && s < c.numSets && s * 8 <= x < s * 8 + 8
    requires x in At(c, st, batch, max, n).pending && forall j :: 0 <= j < n ==> !Matches(c, st.tags, batch[j].key, x)
    ensures Equal(Lost(c, st, batch, max, s, n), st.counters[x]) >= 1
  {
    var i := n - 1;
    var r, lost, v := At(c, st, batch, max, i), Lost(c, st, batch, max, s, i), st.counters[x];
    Reached(c, st, batch, max, i);
    AtOk(c, st, batch, max, i);
    var lostAt := LostAt(c, r, At(c, st, batch, max, n), batch[i], max, s);
    CountConcat(lost, lostAt, v, true);
    CountConcat(lost, lostAt, v, false);
    EqualNat(lost, v);
    EqualNat(lostAt, v);
    if x in r.pending {
      LostOld(c, st, batch, max, s, i, x);
    } else {
      LostOne(c, st.tags, r, batch[i], max, s, x);
      KeptRaised(c, st, batch, max, i, x);
      NotRaised(c, st, batch, x, i);
      EqualAt(lostAt, v, 0);
    }
  }

  // ---------------------------------------------------------------------------------------------
  // The forecast comes true.

  ghost predicate IsForecast(c: Config, st: Insertion, batch: seq<Candidate>, max: nat, s: nat, n: nat)
    requires Batch(c, st, batch, max, n) && s < c.numSets
  {
    forall v, incl :: Forecast(c, st, batch, s, n, v, incl) == Count(Claims(c, st, batch, max, s, n), v, incl)
  }

  /** A key that has given way has eight claims above it, if none equals it. */
  lemma DisplacedLoses(c: Config, st: Insertion, batch: seq<Candidate>, max: nat, s: nat, i: nat)
    requires Displaced(c, st, batch, max, i) && s == c.setIndex(batch[i].key) < c.numSets
    requires Equal(Claims(c, st, batch, max, s, i), OldCounter(c, st, batch[i].key)) == 1
    ensures Count(Claims(c, st, batch, max, s, i), OldCounter(c, st, batch[i].key), false) >= 8
  {
    var k, r := batch[i].key, At(c, st, batch, max, i);
    var held, lost := HeldIn(r, s), Lost(c, st, batch, max, s, i);
    var x: nat :| x < |st.tags| && Matches(c, st.tags, k, x);
    OldCounterIs(c, st, k, x);
    if x !in r.pending {
      KeptMatches(c, st, batch, max, k, x, i);
    }
    var v := st.counters[x];
    PendingBelow(c, st, batch, max, i, x);
    LostOld(c, st, batch, max, s, i, x);
    OneBelow(held, lost, v);
  }

  lemma OneBelow(held: seq<real>, lost: seq<real>, v: real)
    requires |held| == 8 && NoneAbove([v], held) && Equal(held + lost, v) == 1 && Equal(lost, v) >= 1
    ensures Count(held + lost, v, false) >= 8
  {
    CountConcat(held, lost, v, true);
    CountConcat(held, lost, v, false);
    EqualNat(held, v);
    CountBound(held, v, true);
    assert forall j :: 0 <= j < 8 ==> [v][0] <= held[j];
  }

  /** A key that is still resident at its turn has fewer. */
  lemma ResidentHolds(c: Config, st: Insertion, batch: seq<Candidate>, max: nat, s: nat, i: nat)
    requires Batch(c, st, batch, max, i + 1) && s == c.setIndex(batch[i].key) < c.numSets
    requires Resident(c, At(c, st, batch, max, i).tags, batch[i].key)
    ensures Count(Claims(c, st, batch, max, s, i), OldCounter(c, st, batch[i].key), false) < 8
  {
    var r := At(c, st, batch, max, i);
    var held, lost := HeldIn(r, s), Lost(c, st, batch, max, s, i);
    var y: nat :| y < |r.tags| && Matches(c, r.tags, batch[i].key, y);
    HitHeld(c, st, batch, max, i, y, s);
    LostBelow(c, st, batch, max, s, i);
    HeldAreLargest(held, lost);
    CountBound(held, st.counters[y], false);
    assert !Above(held[y - s * 8], st.counters[y], false);
  }

  lemma GivesWayIs(c: Config, st: Insertion, batch: seq<Candidate>, max: nat, s: nat, i: nat)
    requires Batch(c, st, batch, max, i + 1) && s == c.setIndex(batch[i].key) < c.numSets
    requires IsForecast(c, st, batch, max, s, i) && Untied(c, st, batch, s, i)
    ensures Displaced(c, st, batch, max, i) <==> GivesWay(c, st, batch, s, i)
  {
    if Displaced(c, st, batch, max, i) {
      DisplacedLoses(c, st, batch, max, s, i);
    } else if Resident(c, st.tags, batch[i].key) {
      ResidentHolds(c, st, batch, max, s, i);
    }
  }

  lemma ForecastNext(c: Config, st: Insertion, batch: seq<Candidate>, max: nat, s: nat, i: nat)
    requires Batch(c, st, batch, max, i + 1) && s < c.numSets
    requires IsForecast(c, st, batch, max, s, i) && Untied(c, st, batch, s, i)
    ensures IsForecast(c, st, batch, max, s, i + 1)
  {
    if c.setIndex(batch[i].key) == s {
      GivesWayIs(c, st, batch, max, s, i);
    }
    var n := i + 1;
    forall v, incl
      ensures Forecast(c, st, batch, s, n, v, incl) == Count(Claims(c, st, batch, max, s, n), v, incl)
    {
      ClaimsNext(c, st, batch, max, i, s, v, incl);
    }
  }

  lemma {:induction false} ForecastIs(c: Config, st: Insertion, batch: seq<Candidate>, max: nat, s: nat, n: nat)
    requires Batch(c, st, batch, max, n) && s < c.numSets && forall i: nat :: i < n ==> Untied(c, st, batch, s, i)
    ensures IsForecast(c, st, batch, max, s, n)
  {
    if n == 0 {
      assert Claims(c, st, batch, max, s, 0) == HeldIn(st, s);
    } else {
      ForecastIs(c, st, batch, max, s, n - 1);
      ForecastNext(c, st, batch, max, s, n - 1);
    }
  }

  // ---------------------------------------------------------------------------------------------
  // What a caller can tell.

  /** A resident key of the batch gives way before its turn if and only if the forecast says so. */
  lemma DisplacedIff(c: Config, st: Insertion, batch: seq<Candidate>, max: nat, s: nat, i: nat)
    requires Batch(c, st, batch, max, i + 1) && s == c.setIndex(batch[i].key) < c.numSets
    requires forall j: nat :: j <= i ==> Untied(c, st, batch, s, j)
    ensures Displaced(c, st, batch, max, i) <==> GivesWay(c, st, batch, s, i)
  {
    ForecastIs(c, st, batch, max, s, i);
    GivesWayIs(c, st, batch, max, s, i);
  }

  lemma WrongedIff(c: Config, st: Insertion, batch: seq<Candidate>, max: nat, s: nat, i: nat)
    requires Batch(c, st, batch, max, |batch|) && s < c.numSets && i < |batch|
    requires forall j: nat :: j < |batch| ==> Untied(c, st, batch, s, j)
    ensures Wronged(c, st, batch, max, s, i) <==> Shortchanged(c, st, batch, s, i)
  {
    if c.setIndex(batch[i].key) == s {
      var held, q := HeldAfter(c, st, batch, max, s), OldCounter(c, st, batch[i].key) + batch[i].priority;
      DisplacedIff(c, st, batch, max, s, i);
      ForecastIs(c, st, batch, max, s, |batch|);
      MixedKeepsTop(c, st, batch, max, s);
      CountBound(held, q, true);
      assert NoneAbove([q], held) <==> forall j :: 0 <= j < 8 ==> [q][0] <= held[j];
    }
  }

  /** Before the call: an insert within the update limit leaves a set with the eight largest stakes if and only if no
      key of the batch is shortchanged. */
  lemma ForecastIff(c: Config, st: Insertion, batch: seq<Candidate>, max: nat, s: nat)
    requires Batch(c, st, batch, max, |batch|) && s < c.numSets
    requires forall i: nat :: i < |batch| ==> Untied(c, st, batch, s, i)
    ensures EightLargest(HeldAfter(c, st, batch, max, s), Stakes(c, st, batch, s, |batch|)) <==>
            forall i: nat :: i < |batch| ==> !Shortchanged(c, st, batch, s, i)
  {
    IdealIff(c, st, batch, max, s);
    forall i: nat | i < |batch|
      ensures Wronged(c, st, batch, max, s, i) <==> Shortchanged(c, st, batch, s, i)
    {
      WrongedIff(c, st, batch, max, s, i);
    }
  }
}
