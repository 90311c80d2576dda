/** Insert batches that contain resident keys. Such a key gains its priority if it is still resident at its turn; a key
    that was displaced before starts anew. */
module InsertMixed {

  import opened CacheRuns
  import opened CacheSpec
  import opened InsertOptimal
  import opened SetCache

  /** What the interface asks of a batch; priorities and counters are relative frequencies and their sums. */
  ghost predicate Offering(c: Config, st: Insertion, batch: seq<Candidate>) {
    && HashOk(c) && TagsOk(c, st.tags) && Sized(c, st.counters) && st.pending == map[] && KeysOk(c, batch)
    && (forall i, j :: 0 <= i < j < |batch| ==> batch[i].key != batch[j].key && batch[i].priority >= batch[j].priority)
    && (forall i :: 0 <= i < |batch| ==> batch[i].priority >= 0.0)
    && (forall x :: 0 <= x < |st.counters| ==> st.counters[x] >= 0.0)
  }

  // ---------------------------------------------------------------------------------------------
  // What a resident key gains.

  /** Inserting a key that is resident in slot `x` raises the counter of that slot by the priority and does nothing
      else. */
  lemma ResidentGains(c: Config, st: Insertion, a: Candidate, x: nat)
    requires HashOk(c) && TagsOk(c, st.tags) && Sized(c, st.counters) && Usable(c, a.key) &&
             Matches(c, st.tags, a.key, x)
    ensures var r := InsertOne(c, st, a);
            && r.tags == st.tags && r.pending == st.pending && |r.counters| == |st.counters|
            && forall y :: 0 <= y < |st.counters| ==>
                 r.counters[y] == st.counters[y] + if y == x then a.priority else 0.0
  {
    MatchUnique(c, st.tags, a.key, x, FindSlot(c, st.tags, a.key));
  }

  /** The priorities of key `k` among the first `n` that are reached. */
  ghost function Gain(c: Config, st: Insertion, batch: seq<Candidate>, max: nat, k: int, n: nat): real
    requires InsertionSized(c, st) && n <= |batch|
  {
    if n == 0 then 0.0
    else Gain(c, st, batch, max, k, n - 1) +
         if batch[n - 1].key == k && |InsertUpTo(c, st, batch, max, n - 1).pending| < max
         then batch[n - 1].priority else 0.0
  }

  lemma MissAt(c: Config, r: Insertion, a: Candidate, x: nat)
    requires HashOk(c) && InsertionSized(c, r) && Usable(c, a.key) && !Resident(c, r.tags, a.key)
    requires x < |r.tags| && x !in InsertOne(c, r, a).pending
    ensures InsertOne(c, r, a).counters[x] == r.counters[x]
  {
    FirstMinExists(r.counters, c.setIndex(a.key) * 8, 8);
  }

  lemma GainNext(c: Config, r: Insertion, a: Candidate, k: int, x: nat)
    requires HashOk(c) && TagsOk(c, r.tags) && Sized(c, r.counters) && Usable(c, a.key) && Usable(c, k)
    requires Matches(c, r.tags, k, x) && x !in InsertOne(c, r, a).pending
    ensures InsertOne(c, r, a).counters[x] == r.counters[x] + if a.key == k then a.priority else 0.0
  {
    if y :| 0 <= y < |r.tags| && Matches(c, r.tags, a.key, y) {
      ResidentGains(c, r, a, y);
      if a.key == k {
        MatchUnique(c, r.tags, k, x, y);
      } else {
        MatchUnique(c, r.tags, k, x, x);
        MatchUnique(c, r.tags, a.key, y, y);
      }
    } else {
      assert !Resident(c, r.tags, a.key);
      MissAt(c, r, a, x);
    }
  }

  lemma NthGains(c: Config, st: Insertion, batch: seq<Candidate>, max: nat, k: int, x: nat, i: nat)
    requires HashOk(c) && TagsOk(c, st.tags) && Sized(c, st.counters) && st.pending == map[] && KeysOk(c, batch)
    requires Usable(c, k) && i < |batch| && x < |st.tags| && x !in InsertNth(c, st, batch, max, i).pending
    ensures x !in InsertUpTo(c, st, batch, max, i).pending
    ensures var r := InsertUpTo(c, st, batch, max, i); Matches(c, r.tags, k, x) ==>
              InsertNth(c, st, batch, max, i).counters[x] ==
              r.counters[x] + if batch[i].key == k && |r.pending| < max then batch[i].priority else 0.0
  {
    var r := InsertUpTo(c, st, batch, max, i);
    InsertUpToOk(c, st, batch, max, i);
    if |r.pending| < max {
      InsertOneOk(c, st.tags, r, batch[i]);
      if Matches(c, r.tags, k, x) {
        GainNext(c, r, batch[i], k, x);
      }
    }
  }

  /** A slot that is not refilled keeps its key, whose counter has grown by the priorities reached. */
  lemma {:induction false} KeptGains(c: Config, st: Insertion, batch: seq<Candidate>, max: nat, k: int, x: nat, n: nat)
    requires HashOk(c) && TagsOk(c, st.tags) && Sized(c, st.counters) && st.pending == map[] && KeysOk(c, batch)
    requires Usable(c, k) && Matches(c, st.tags, k, x) && n <= |batch| && x !in InsertUpTo(c, st, batch, max, n).pending
    ensures Matches(c, InsertUpTo(c, st, batch, max, n).tags, k, x)
    ensures InsertUpTo(c, st, batch, max, n).counters[x] == st.counters[x] + Gain(c, st, batch, max, k, n)
  {
    KeptMatches(c, st, batch, max, k, x, n);
    if n > 0 {
      NthGains(c, st, batch, max, k, x, n - 1);
      KeptGains(c, st, batch, max, k, x, n - 1);
    }
  }

  lemma KeptMatches(c: Config, st: Insertion, batch: seq<Candidate>, max: nat, k: int, x: nat, n: nat)
    requires HashOk(c) && TagsOk(c, st.tags) && Sized(c, st.counters) && st.pending == map[] && KeysOk(c, batch)
    requires Matches(c, st.tags, k, x) && n <= |batch| && x !in InsertUpTo(c, st, batch, max, n).pending
    ensures Matches(c, InsertUpTo(c, st, batch, max, n).tags, k, x)
  {
    InsertUpToOk(c, st, batch, max, n);
  }

  lemma NotListed(pending: map<nat, ModifyEntry>, list: seq<ModifyEntry>, x: nat)
    requires ListOf(pending, list) && forall j :: 0 <= j < |list| ==> list[j].slot != x
    ensures x !in pending
  {
  }

  lemma NextIs(c: Config, rate: real, s: State, batch: seq<Candidate>, max: nat, list: seq<ModifyEntry>, s': State)
    requires Inv(c, s) && Next(c, rate, s, InsertOp(batch, max), list, s')
    ensures var r := InsertUpTo(c, Insertion(s.tags, Decayed(s.counters, rate), map[]), batch, max, |batch|);
            s'.tags == r.tags && s'.counters == r.counters && ListOf(r.pending, list)
  {
  }

  lemma StepGains(c: Config, st: Insertion, rate: real, s: State, batch: seq<Candidate>, max: nat,
                  list: seq<ModifyEntry>, s': State, k: int, x: nat)
    requires Inv(c, s) && KeysOk(c, batch) && Usable(c, k) && Next(c, rate, s, InsertOp(batch, max), list, s')
    requires Matches(c, s.tags, k, x) && forall j :: 0 <= j < |list| ==> list[j].slot != x
    requires st == Insertion(s.tags, Decayed(s.counters, rate), map[])
    ensures Matches(c, s'.tags, k, x) && |s'.counters| == |s.counters| == |s.tags| == |st.counters|
    ensures s'.counters[x] == st.counters[x] + Gain(c, st, batch, max, k, |batch|)
  {
    NextIs(c, rate, s, batch, max, list, s');
    NotListed(InsertUpTo(c, st, batch, max, |batch|).pending, list, x);
    KeptGains(c, st, batch, max, k, x, |batch|);
  }

  /** A key that is resident throughout an insert ends with the decayed counter plus its priorities that were
      reached. */
  lemma ThroughoutGains(c: Config, rate: real, s: State, batch: seq<Candidate>, max: nat, list: seq<ModifyEntry>,
                        s': State, k: int, x: nat)
    requires Inv(c, s) && KeysOk(c, batch) && Usable(c, k) && Next(c, rate, s, InsertOp(batch, max), list, s')
    requires Matches(c, s.tags, k, x) && forall j :: 0 <= j < |list| ==> list[j].slot != x
    ensures Matches(c, s'.tags, k, x) && |s'.counters| == |s.counters| == |s.tags|
    ensures s'.counters[x] ==
            s.counters[x] * rate + Gain(c, Insertion(s.tags, Decayed(s.counters, rate), map[]), batch, max, k, |batch|)
  {
    var st := Insertion(s.tags, Decayed(s.counters, rate), map[]);
    StepGains(c, st, rate, s, batch, max, list, s', k, x);
    assert st.counters[x] == s.counters[x] * rate;
  }

  // ---------------------------------------------------------------------------------------------
  // The eight largest.

  predicate Above(x: real, v: real, incl: bool) {
    x > v || (incl && x == v)
  }

  function One(b: bool): nat {
    if b then 1 else 0
  }

  /** The number of elements above a threshold, those equal to it included or not. */
  function Count(xs: seq<real>, v: real, incl: bool): nat {
    if xs == [] then 0 else Count(xs[..|xs| - 1], v, incl) + One(Above(xs[|xs| - 1], v, incl))
  }

  /** `top` are the eight largest of `xs`: above any threshold they have as many as `xs`, up to eight. */
  ghost predicate EightLargest(top: seq<real>, xs: seq<real>) {
    |top| == 8 && forall v, incl :: Count(top, v, incl) == if Count(xs, v, incl) < 8 then Count(xs, v, incl) else 8
  }

  lemma {:induction false} CountBound(xs: seq<real>, v: real, incl: bool)
    ensures Count(xs, v, incl) <= |xs|
    ensures Count(xs, v, incl) == |xs| <==> forall i :: 0 <= i < |xs| ==> Above(xs[i], v, incl)
    ensures Count(xs, v, incl) == 0 <==> forall i :: 0 <= i < |xs| ==> !Above(xs[i], v, incl)
  {
    if xs != [] {
      var n := |xs| - 1;
      CountBound(xs[..n], v, incl);
      assert forall i :: 0 <= i < n ==> xs[..n][i] == xs[i];
    }
  }

  lemma {:induction false} CountChange(xs: seq<real>, i: nat, x: real, v: real, incl: bool)
    requires i < |xs|
    ensures Count(xs[i := x], v, incl) == Count(xs, v, incl) - One(Above(xs[i], v, incl)) + One(Above(x, v, incl))
  {
    var n := |xs| - 1;
    if i == n {
      assert xs[i := x][..n] == xs[..n];
    } else {
      CountChange(xs[..n], i, x, v, incl);
      assert xs[i := x][..n] == xs[..n][i := x];
    }
  }

  lemma CountPush(xs: seq<real>, x: real, v: real, incl: bool)
    ensures Count(xs + [x], v, incl) == Count(xs, v, incl) + One(Above(x, v, incl))
  {
    assert (xs + [x])[..|xs|] == xs;
  }

  lemma {:induction false} CountConcat(xs: seq<real>, ys: seq<real>, v: real, incl: bool)
    ensures Count(xs + ys, v, incl) == Count(xs, v, incl) + Count(ys, v, incl)
  {
    if ys == [] {
      assert xs + ys == xs;
    } else {
      var n := |ys| - 1;
      CountConcat(xs, ys[..n], v, incl);
      assert xs + ys == (xs + ys[..n]) + [ys[n]];
      CountPush(xs + ys[..n], ys[n], v, incl);
    }
  }

  /** A lower threshold has more above it. */
  lemma {:induction false} CountMono(xs: seq<real>, v: real, incl: bool, w: real, incl': bool)
    requires forall x :: Above(x, w, incl') ==> Above(x, v, incl)
    ensures Count(xs, w, incl') <= Count(xs, v, incl)
  {
    if xs != [] {
      CountMono(xs[..|xs| - 1], v, incl, w, incl');
    }
  }

  predicate NoneAbove(lost: seq<real>, held: seq<real>) {
    forall i, j :: 0 <= i < |lost| && 0 <= j < |held| ==> lost[i] <= held[j]
  }

  lemma HeldAreLargest(held: seq<real>, lost: seq<real>)
    requires |held| == 8 && NoneAbove(lost, held)
    ensures EightLargest(held, held + lost)
  {
    forall v, incl
      ensures Count(held, v, incl) == if Count(held + lost, v, incl) < 8 then Count(held + lost, v, incl) else 8
    {
      CountConcat(held, lost, v, incl);
      CountBound(held, v, incl);
      CountBound(lost, v, incl);
      if i :| 0 <= i < |lost| && Above(lost[i], v, incl) {
        assert forall j :: 0 <= j < |held| ==> lost[i] <= held[j];
      }
    }
  }

  // ---------------------------------------------------------------------------------------------
  // One key and one set.

  ghost function HeldIn(r: Insertion, s: nat): (h: seq<real>)
    requires s * 8 + 8 <= |r.counters|
    ensures |h| == 8
  {
    r.counters[s * 8..s * 8 + 8]
  }

  /** What set `s` loses by one key: nothing if it is for another set, not reached or found; otherwise the counter that
      gave way to it, or its own priority. */
  ghost function LostAt(c: Config, r: Insertion, r': Insertion, a: Candidate, max: nat, s: nat): seq<real>
    requires InsertionSized(c, r) && InsertionSized(c, r')
  {
    if c.setIndex(a.key) != s || |r.pending| >= max || Resident(c, r.tags, a.key) then []
    else if y :| 0 <= y < |r'.tags| && Matches(c, r'.tags, a.key, y) then [r.counters[y]]
    else [a.priority]
  }

  predicate Raises(held: seq<real>, held': seq<real>, i: nat, p: real) {
    i < |held| && held' == held[i := held[i] + p]
  }

  /** `p` takes the place of a least element. */
  predicate Replaces(held: seq<real>, held': seq<real>, i: nat, p: real) {
    i < |held| && held' == held[i := p] && held[i] <= p && NoneAbove([held[i]], held)
  }

  /** What a key of priority `p` may do to the counters of a set, and what is lost by it. */
  ghost predicate Moves(held: seq<real>, held': seq<real>, p: real, lost: seq<real>) {
    || (held' == held && lost == [])
    || (lost == [] && exists i: nat :: Raises(held, held', i, p))
    || (held' == held && lost == [p] && NoneAbove([p], held))
    || (exists i: nat :: Replaces(held, held', i, p) && lost == [held[i]])
  }

  lemma MoveKeeps(held: seq<real>, held': seq<real>, p: real, lostAt: seq<real>, lost: seq<real>)
    requires p >= 0.0 && Moves(held, held', p, lostAt) && NoneAbove(lost, held)
    ensures |held'| == |held| && NoneAbove(lost + lostAt, held')
  {
    if i: nat :| Replaces(held, held', i, p) && lostAt == [held[i]] {
      assert forall j :: 0 <= j < |held| ==> [held[i]][0] <= held[j];
    } else if held' == held && lostAt == [p] && NoneAbove([p], held) {
      assert forall j :: 0 <= j < |held| ==> [p][0] <= held[j];
    } else {
      assert lost + lostAt == lost;
    }
  }

  lemma OtherSet(r: Insertion, y: nat, p: real, s: nat)
    requires s * 8 + 8 <= |r.counters| && y < |r.counters|
    ensures HeldIn(r.(counters := r.counters[y := p]), s) ==
            if y / 8 == s then HeldIn(r, s)[y - s * 8 := p] else HeldIn(r, s)
  {
  }

  lemma HitMoves(c: Config, r: Insertion, a: Candidate, x: nat, max: nat, s: nat)
    requires HashOk(c) && TagsOk(c, r.tags) && Sized(c, r.counters) && Usable(c, a.key) && Matches(c, r.tags, a.key, x)
    requires s < c.numSets
    ensures var r' := InsertOne(c, r, a);
            Moves(HeldIn(r, s), HeldIn(r', s), a.priority, LostAt(c, r, r', a, max, s))
  {
    var r' := InsertOne(c, r, a);
    ResidentGains(c, r, a, x);
    assert r'.counters == r.counters[x := r.counters[x] + a.priority];
    OtherSet(r, x, r.counters[x] + a.priority, s);
    if x / 8 == s {
      assert Raises(HeldIn(r, s), HeldIn(r', s), x - s * 8, a.priority);
    }
  }

  lemma LeastOfSet(counters: seq<real>, r: Insertion, s: nat, y: nat)
    requires r.counters == counters && FirstMin(counters, s * 8, 8, y)
    ensures y / 8 == s && NoneAbove([counters[y]], HeldIn(r, s))
  {
  }

  lemma PlaceMoves(c: Config, tags0: seq<int>, r: Insertion, a: Candidate, y: nat, max: nat, s: nat)
    requires HashOk(c) && InsertionOk(c, tags0, r) && Usable(c, a.key) && !Resident(c, r.tags, a.key) && s < c.numSets
    requires FirstMin(r.counters, c.setIndex(a.key) * 8, 8, y) && r.counters[y] <= a.priority && y !in r.pending
    requires |r.pending| < max
    ensures var r' := Place(c, r, a, y);
            InsertionSized(c, r') && Moves(HeldIn(r, s), HeldIn(r', s), a.priority, LostAt(c, r, r', a, max, s))
  {
    var r' := Place(c, r, a, y);
    LeastOfSet(r.counters, r, c.setIndex(a.key), y);
    OtherSet(r, y, a.priority, s);
    PlaceInsertion(c, tags0, r, a, y);
    forall x | 0 <= x < |r'.tags| && Matches(c, r'.tags, a.key, x)
      ensures x == y
    {
      MatchUnique(c, r'.tags, a.key, x, y);
    }
    if c.setIndex(a.key) == s {
      assert Replaces(HeldIn(r, s), HeldIn(r', s), y - s * 8, a.priority);
      assert Matches(c, r'.tags, a.key, y);
      assert LostAt(c, r, r', a, max, s) == [HeldIn(r, s)[y - s * 8]];
    }
  }

  lemma DeclineMoves(c: Config, r: Insertion, a: Candidate, y: nat, max: nat, s: nat)
    requires HashOk(c) && InsertionSized(c, r) && Usable(c, a.key) && !Resident(c, r.tags, a.key) && s < c.numSets
    requires FirstMin(r.counters, c.setIndex(a.key) * 8, 8, y) && r.counters[y] >= a.priority
    ensures Moves(HeldIn(r, s), HeldIn(r, s), a.priority, LostAt(c, r, r, a, max, s))
  {
    LeastOfSet(r.counters, r, c.setIndex(a.key), y);
    if c.setIndex(a.key) == s {
      var held := HeldIn(r, s);
      assert forall j :: 0 <= j < |held| ==> [r.counters[y]][0] <= held[j];
      assert NoneAbove([a.priority], held);
      assert forall x :: 0 <= x < |r.tags| ==> !Matches(c, r.tags, a.key, x);
    }
  }

  lemma StepMoves(c: Config, tags0: seq<int>, r: Insertion, a: Candidate, max: nat, s: nat)
    requires HashOk(c) && InsertionOk(c, tags0, r) && Usable(c, a.key) && FilledHigh(r, a.priority) && s < c.numSets
    requires |r.pending| < max
    ensures var r' := InsertOne(c, r, a);
            Moves(HeldIn(r, s), HeldIn(r', s), a.priority, LostAt(c, r, r', a, max, s))
  {
    if x :| 0 <= x < |r.tags| && Matches(c, r.tags, a.key, x) {
      HitMoves(c, r, a, x, max, s);
    } else {
      assert !Resident(c, r.tags, a.key);
      FirstMinExists(r.counters, c.setIndex(a.key) * 8, 8);
      var y := MinSlot(r.counters, c.setIndex(a.key) * 8);
      if r.counters[y] > a.priority || y in r.pending {
        DeclineMoves(c, r, a, y, max, s);
      } else {
        PlaceMoves(c, tags0, r, a, y, max, s);
      }
    }
  }

  // ---------------------------------------------------------------------------------------------
  // A whole batch.

  ghost predicate InBatch(c: Config, st: Insertion, batch: seq<Candidate>, max: nat, n: nat) {
    Offering(c, st, batch) && n <= |batch|
  }

  /** The state after the first `n` keys. */
  ghost function At(c: Config, st: Insertion, batch: seq<Candidate>, max: nat, n: nat): (r: Insertion)
    requires InBatch(c, st, batch, max, n)
    ensures InsertionSized(c, r) && |r.tags| == |st.tags|
  {
    InsertUpTo(c, st, batch, max, n)
  }

  lemma AtOk(c: Config, st: Insertion, batch: seq<Candidate>, max: nat, n: nat)
    requires InBatch(c, st, batch, max, n)
    ensures InsertionOk(c, st.tags, At(c, st, batch, max, n))
  {
    InsertUpToOk(c, st, batch, max, n);
  }

  lemma AtNext(c: Config, st: Insertion, batch: seq<Candidate>, max: nat, i: nat)
    requires InBatch(c, st, batch, max, i + 1)
    ensures At(c, st, batch, max, i + 1) ==
            if |At(c, st, batch, max, i).pending| >= max then At(c, st, batch, max, i)
            else InsertOne(c, At(c, st, batch, max, i), batch[i])
  {
    assert InsertUpTo(c, st, batch, max, i + 1) == InsertNth(c, st, batch, max, i);
  }

  lemma OneHigh(c: Config, tags0: seq<int>, r: Insertion, a: Candidate)
    requires HashOk(c) && InsertionOk(c, tags0, r) && Usable(c, a.key) && FilledHigh(r, a.priority) && a.priority >= 0.0
    ensures FilledHigh(InsertOne(c, r, a), a.priority)
  {
    if x :| 0 <= x < |r.tags| && Matches(c, r.tags, a.key, x) {
      ResidentGains(c, r, a, x);
    } else {
      assert !Resident(c, r.tags, a.key);
      OneKeyMisses(c, r, a);
    }
  }

  lemma {:induction false} AtHigh(c: Config, st: Insertion, batch: seq<Candidate>, max: nat, n: nat)
    requires InBatch(c, st, batch, max, n + 1)
    ensures FilledHigh(At(c, st, batch, max, n), batch[n].priority)
  {
    if n > 0 {
      AtHigh(c, st, batch, max, n - 1);
      AtOk(c, st, batch, max, n - 1);
      AtNext(c, st, batch, max, n - 1);
      OneHigh(c, st.tags, At(c, st, batch, max, n - 1), batch[n - 1]);
    }
  }

  /** What key `i` does to set `s`. */
  lemma NthMoves(c: Config, st: Insertion, batch: seq<Candidate>, max: nat, i: nat, s: nat)
    requires InBatch(c, st, batch, max, i + 1) && s < c.numSets
    ensures var r, r' := At(c, st, batch, max, i), At(c, st, batch, max, i + 1);
            Moves(HeldIn(r, s), HeldIn(r', s), batch[i].priority, LostAt(c, r, r', batch[i], max, s))
  {
    AtOk(c, st, batch, max, i);
    AtHigh(c, st, batch, max, i);
    AtNext(c, st, batch, max, i);
    if |At(c, st, batch, max, i).pending| < max {
      StepMoves(c, st.tags, At(c, st, batch, max, i), batch[i], max, s);
    }
  }

  /** The counters evicted from set `s` and the priorities it declined, up to key `n`. */
  ghost function Lost(c: Config, st: Insertion, batch: seq<Candidate>, max: nat, s: nat, n: nat): seq<real>
    requires InBatch(c, st, batch, max, n)
  {
    if n == 0 then []
    else Lost(c, st, batch, max, s, n - 1) +
         LostAt(c, At(c, st, batch, max, n - 1), At(c, st, batch, max, n), batch[n - 1], max, s)
  }

  /** Nothing that a set lost is above anything it holds. */
  lemma {:induction false} LostBelow(c: Config, st: Insertion, batch: seq<Candidate>, max: nat, s: nat, n: nat)
    requires InBatch(c, st, batch, max, n) && s < c.numSets
    ensures NoneAbove(Lost(c, st, batch, max, s, n), HeldIn(At(c, st, batch, max, n), s))
  {
    if n > 0 {
      LostBelow(c, st, batch, max, s, n - 1);
      NthMoves(c, st, batch, max, n - 1, s);
      var r, r' := At(c, st, batch, max, n - 1), At(c, st, batch, max, n);
      MoveKeeps(HeldIn(r, s), HeldIn(r', s), batch[n - 1].priority, LostAt(c, r, r', batch[n - 1], max, s),
                Lost(c, st, batch, max, s, n - 1));
    }
  }

  /** Whatever the batch and the update limit, a set ends with the eight largest of what it holds and what it lost. */
  lemma MixedKeepsTop(c: Config, st: Insertion, batch: seq<Candidate>, max: nat, s: nat)
    requires InBatch(c, st, batch, max, |batch|) && s < c.numSets
    ensures var held := HeldIn(At(c, st, batch, max, |batch|), s);
            EightLargest(held, held + Lost(c, st, batch, max, s, |batch|))
  {
    LostBelow(c, st, batch, max, s, |batch|);
    HeldAreLargest(HeldIn(At(c, st, batch, max, |batch|), s), Lost(c, st, batch, max, s, |batch|));
  }
}
