/** Insert keeps, in every set, the largest priorities it has seen: for a batch of distinct keys that are
    not resident, sorted by falling priority as the interface asks, the counters of a set after the batch
    are the eight largest among its (decayed) counters and the priorities offered to it. */
module InsertOptimal {
  import opened CacheSpec
  import Histogram

  /** `top` holds the eight largest elements of `all`. */
  ghost predicate IsTop8(top: multiset<real>, all: multiset<real>) {
    && top <= all && |top| == 8
    && forall x, y :: x in top && y in all - top ==> x >= y
  }

  /** The eight largest elements are determined, so `IsTop8` says all there is to say. */
  lemma TopUnique(t1: multiset<real>, t2: multiset<real>, all: multiset<real>)
    requires IsTop8(t1, all) && IsTop8(t2, all)
    ensures t1 == t2
  {
    var d, e := t1 - t2, t2 - t1;
    assert t1 + e == t2 + d;
    if d != multiset{} && e != multiset{} {
      SomeElement(d);
      SomeElement(e);
      var x, y :| x in d && y in e;
      TopAbove(t1, t2, all, x, y);
      TopAbove(t2, t1, all, y, x);
      assert false;
    }
    assert |d| == |e|;
    assert d == multiset{} && e == multiset{};
  }

  lemma TopAbove(t1: multiset<real>, t2: multiset<real>, all: multiset<real>, x: real, y: real)
    requires IsTop8(t1, all) && t2 <= all && x in t1 && y in t2 - t1
    ensures x >= y
  {
    assert y in all - t1;
  }

  lemma SomeElement(a: multiset<real>)
    requires a != multiset{}
    ensures exists x :: x in a
  {
    assert (forall x :: x !in a) ==> a == multiset{};
  }

  lemma CardDiff(a: multiset<real>, b: multiset<real>)
    requires b <= a
    ensures |a - b| == |a| - |b|
  {
    assert a == b + (a - b);
  }

  ghost function SetCounters(counters: seq<real>, s: nat): multiset<real>
    requires s * 8 + 8 <= |counters|
  {
    multiset(counters[s * 8..s * 8 + 8])
  }

  lemma SetCountersUpdate(counters: seq<real>, s: nat, y: nat, p: real)
    requires s * 8 + 8 <= |counters| && y < |counters|
    ensures SetCounters(counters[y := p], s) ==
            if y / 8 == s then SetCounters(counters, s) - multiset{counters[y]} + multiset{p}
            else SetCounters(counters, s)
  {
    var b := s * 8;
    if y / 8 == s {
      assert counters[y := p][b..b + 8] == counters[b..b + 8][y - b := p];
    } else {
      assert counters[y := p][b..b + 8] == counters[b..b + 8];
    }
  }

  /** What the interface asks of a batch, and that no key is resident yet. */
  ghost predicate FreshSorted(c: Config, tags: seq<int>, batch: seq<Candidate>) {
    && KeysOk(c, batch)
    && (forall i, j :: 0 <= i < j < |batch| ==> batch[i].key != batch[j].key && batch[i].priority >= batch[j].priority)
    && (forall i :: 0 <= i < |batch| ==> !Resident(c, tags, batch[i].key))
  }

  // ---------------------------------------------------------------------------------------------
  // No key of a fresh batch is ever found.

  lemma {:induction false} PrefixSame(c: Config, st: Insertion, batch: seq<Candidate>, max: nat, n: nat, k: nat)
    requires Sized(c, st.tags) && Sized(c, st.counters) && n <= k <= |batch|
    ensures InsertUpTo(c, st, batch, max, n) == InsertUpTo(c, st, batch[..k], max, n)
  {
    if n > 0 { PrefixSame(c, st, batch, max, n - 1, k); }
  }

  lemma NotFound(c: Config, st: Insertion, batch: seq<Candidate>, max: nat, n: nat)
    requires HashOk(c) && TagsOk(c, st.tags) && Sized(c, st.counters) && st.pending == map[]
    requires FreshSorted(c, st.tags, batch) && n < |batch|
    ensures !Resident(c, InsertUpTo(c, st, batch, max, n).tags, batch[n].key)
  {
    var s, pre := InsertUpTo(c, st, batch, max, n), batch[..n];
    PrefixSame(c, st, batch, max, n, n);
    InsertUpToOk(c, st, pre, max, n);
    forall x | 0 <= x < |s.tags| ensures !Matches(c, s.tags, batch[n].key, x) {
      if x in s.pending {
        assert FilledFrom(c, s, pre, x);
      } else {
        assert !Matches(c, st.tags, batch[n].key, x);
      }
    }
  }

  // ---------------------------------------------------------------------------------------------
  // One key.

  /** Slots filled in this batch have counters no smaller than any priority still to come. */
  ghost predicate FilledHigh(st: Insertion, p: real) {
    forall x :: x in st.pending ==> x < |st.counters| && st.counters[x] >= p
  }

  lemma SkipKeepsTop(top: multiset<real>, all: multiset<real>, p: real)
    requires IsTop8(top, all) && forall x :: x in top ==> x >= p
    ensures IsTop8(top, all + multiset{p})
  {
    assert (all + multiset{p}) - top == (all - top) + multiset{p};
  }

  lemma ReplaceKeepsTop(top: multiset<real>, all: multiset<real>, least: real, p: real)
    requires IsTop8(top, all) && least in top && p >= least && forall x :: x in top ==> x >= least
    ensures IsTop8(top - multiset{least} + multiset{p}, all + multiset{p})
  {
    var t := top - multiset{least} + multiset{p};
    assert (all + multiset{p}) - t == (all - top) + multiset{least};
    CardDiff(top, multiset{least});
  }

  lemma SetCountersMin(counters: seq<real>, s: nat, y: nat)
    requires FirstMin(counters, s * 8, 8, y)
    ensures counters[y] in SetCounters(counters, s)
    ensures forall x :: x in SetCounters(counters, s) ==> x >= counters[y]
  {
    var b := counters[s * 8..s * 8 + 8];
    assert b[y - s * 8] == counters[y];
    forall x | x in multiset(b) ensures x >= counters[y] {
      assert x in b;
      var i :| 0 <= i < |b| && b[i] == x;
      assert b[i] == counters[s * 8 + i];
    }
  }

  /** The counters after a key that was not found. */
  ghost function MissCounters(counters: seq<real>, filled: set<nat>, base: nat, p: real): seq<real>
    requires base + 8 <= |counters|
  {
    var y := MinSlot(counters, base);
    FirstMinExists(counters, base, 8);
    if counters[y] > p || y in filled then counters else counters[y := p]
  }

  lemma MissTop(counters: seq<real>, filled: set<nat>, ks: nat, s: nat, p: real, all: multiset<real>)
    requires ks * 8 + 8 <= |counters| && s * 8 + 8 <= |counters|
    requires forall x :: x in filled ==> x < |counters| && counters[x] >= p
    requires IsTop8(SetCounters(counters, s), all)
    ensures IsTop8(SetCounters(MissCounters(counters, filled, ks * 8, p), s),
                   if ks == s then all + multiset{p} else all)
  {
    FirstMinExists(counters, ks * 8, 8);
    var y := MinSlot(counters, ks * 8);
    assert FirstMin(counters, ks * 8, 8, y);
    SetCountersUpdate(counters, s, y, p);
    if ks == s {
      var top, least := SetCounters(counters, s), counters[y];
      SetCountersMin(counters, ks, y);
      if least > p || y in filled {
        SkipKeepsTop(top, all, p);
      } else {
        ReplaceKeepsTop(top, all, least, p);
      }
    }
  }

  lemma OneKeyMisses(c: Config, st: Insertion, a: Candidate)
    requires HashOk(c) && InsertionSized(c, st) && Usable(c, a.key)
    requires !Resident(c, st.tags, a.key) && FilledHigh(st, a.priority)
    ensures InsertOne(c, st, a).counters ==
            MissCounters(st.counters, st.pending.Keys, c.setIndex(a.key) * 8, a.priority)
    ensures FilledHigh(InsertOne(c, st, a), a.priority)
  {
    FirstMinExists(st.counters, c.setIndex(a.key) * 8, 8);
  }

  // ---------------------------------------------------------------------------------------------
  // The counters of a whole batch, apart from everything else.

  /** A key that is offered to set `set_` with `priority`; `reached` is false once the batch is cut off. */
  datatype Offer = Offer(set_: nat, priority: real, reached: bool)

  /** `cs` are the counters before and after each key, `fs` the slots filled so far. */
  ghost predicate IsCounterTrace(cs: seq<seq<real>>, fs: seq<set<nat>>, os: seq<Offer>, size: nat) {
    && |cs| == |os| + 1 && |fs| == |os|
    && (forall i :: 0 <= i < |cs| ==> |cs[i]| == size)
    && (forall i :: 0 <= i < |os| ==> os[i].set_ * 8 + 8 <= size)
    && (forall i :: 0 <= i < |os| ==> forall x :: x in fs[i] ==> x < size && cs[i][x] >= os[i].priority)
    && (forall i :: 0 <= i < |os| ==>
          cs[i + 1] == if os[i].reached then MissCounters(cs[i], fs[i], os[i].set_ * 8, os[i].priority) else cs[i])
  }

  /** The priorities offered to set `s` by the keys reached before the batch was cut off. */
  ghost function Offered(os: seq<Offer>, s: nat): multiset<real> {
    if os == [] then multiset{}
    else Offered(os[..|os| - 1], s) + Added(os[|os| - 1], s)
  }

  lemma TopStart(counters: seq<real>, s: nat)
    requires s * 8 + 8 <= |counters|
    ensures IsTop8(SetCounters(counters, s), SetCounters(counters, s) + multiset{})
  {
    var top := SetCounters(counters, s);
    assert top + multiset{} == top;
    assert |counters[s * 8..s * 8 + 8]| == 8;
    assert top - top == multiset{};
  }

  /** What an offer adds to set `s`. */
  function Added(o: Offer, s: nat): multiset<real> {
    if o.reached && o.set_ == s then multiset{o.priority} else multiset{}
  }

  lemma OfferedPush(os: seq<Offer>, s: nat, n: nat)
    requires 0 < n <= |os|
    ensures Offered(os[..n], s) == Offered(os[..n - 1], s) + Added(os[n - 1], s)
  {
    assert os[..n][..n - 1] == os[..n - 1];
  }

  lemma OfferTop(before: seq<real>, filled: set<nat>, after: seq<real>, o: Offer, s: nat, all: multiset<real>)
    requires o.set_ * 8 + 8 <= |before| && s * 8 + 8 <= |before| == |after|
    requires forall x :: x in filled ==> x < |before| && before[x] >= o.priority
    requires after == if o.reached then MissCounters(before, filled, o.set_ * 8, o.priority) else before
    requires IsTop8(SetCounters(before, s), all)
    ensures IsTop8(SetCounters(after, s), all + Added(o, s))
  {
    assert all + multiset{} == all;
    if o.reached {
      MissTop(before, filled, o.set_, s, o.priority, all);
    }
  }

  lemma {:induction false} TraceTop(cs: seq<seq<real>>, fs: seq<set<nat>>, os: seq<Offer>, size: nat, s: nat, n: nat)
    requires IsCounterTrace(cs, fs, os, size) && s * 8 + 8 <= size && n <= |os|
    ensures IsTop8(SetCounters(cs[n], s), SetCounters(cs[0], s) + Offered(os[..n], s))
  {
    var all := SetCounters(cs[0], s);
    if n == 0 {
      TopStart(cs[0], s);
    } else {
      TraceTop(cs, fs, os, size, s, n - 1);
      OfferTop(cs[n - 1], fs[n - 1], cs[n], os[n - 1], s, all + Offered(os[..n - 1], s));
      OfferedPush(os, s, n);
      assert all + Offered(os[..n], s) == all + Offered(os[..n - 1], s) + Added(os[n - 1], s);
    }
  }

  // ---------------------------------------------------------------------------------------------
  // The whole batch.

  lemma {:induction false} FilledHighUpTo(c: Config, st: Insertion, batch: seq<Candidate>, max: nat, n: nat)
    requires HashOk(c) && TagsOk(c, st.tags) && Sized(c, st.counters) && st.pending == map[]
    requires FreshSorted(c, st.tags, batch) && n < |batch|
    ensures FilledHigh(InsertUpTo(c, st, batch, max, n), batch[n].priority)
  {
    if n > 0 {
      FilledHighUpTo(c, st, batch, max, n - 1);
      NotFound(c, st, batch, max, n - 1);
      OneKeyMisses(c, InsertUpTo(c, st, batch, max, n - 1), batch[n - 1]);
    }
  }

  ghost function Steps(c: Config, st: Insertion, batch: seq<Candidate>, max: nat): (ss: seq<Insertion>)
    requires Sized(c, st.tags) && Sized(c, st.counters)
    ensures |ss| == |batch| + 1
    ensures forall i :: 0 <= i < |ss| ==> ss[i] == InsertUpTo(c, st, batch, max, i)
  {
    seq(|batch| + 1, i requires 0 <= i <= |batch| => InsertUpTo(c, st, batch, max, i))
  }

  /** The keys of a batch as offers to their sets. */
  ghost function Offers(c: Config, ss: seq<Insertion>, batch: seq<Candidate>, max: nat): (os: seq<Offer>)
    requires |ss| == |batch| + 1
    ensures |os| == |batch|
  {
    seq(|batch|, i requires 0 <= i < |batch| =>
      Offer(c.setIndex(batch[i].key), batch[i].priority, |ss[i].pending| < max))
  }

  ghost function CountersOf(ss: seq<Insertion>): (cs: seq<seq<real>>)
    ensures |cs| == |ss| && forall i :: 0 <= i < |ss| ==> cs[i] == ss[i].counters
  {
    seq(|ss|, i requires 0 <= i < |ss| => ss[i].counters)
  }

  ghost function FilledOf(ss: seq<Insertion>): (fs: seq<set<nat>>)
    requires |ss| >= 1
    ensures |fs| == |ss| - 1 && forall i :: 0 <= i < |fs| ==> fs[i] == ss[i].pending.Keys
  {
    seq(|ss| - 1, i requires 0 <= i < |ss| - 1 => ss[i].pending.Keys)
  }

  lemma StepCounters(c: Config, st: Insertion, batch: seq<Candidate>, max: nat, i: nat)
    requires HashOk(c) && TagsOk(c, st.tags) && Sized(c, st.counters) && st.pending == map[]
    requires FreshSorted(c, st.tags, batch) && i < |batch|
    ensures var r, a := InsertUpTo(c, st, batch, max, i), batch[i];
            && FilledHigh(r, a.priority)
            && InsertUpTo(c, st, batch, max, i + 1).counters ==
               if |r.pending| < max then MissCounters(r.counters, r.pending.Keys, c.setIndex(a.key) * 8, a.priority)
               else r.counters
  {
    NotFound(c, st, batch, max, i);
    FilledHighUpTo(c, st, batch, max, i);
    OneKeyMisses(c, InsertUpTo(c, st, batch, max, i), batch[i]);
  }

  lemma TraceOfBatch(c: Config, st: Insertion, batch: seq<Candidate>, max: nat)
    requires HashOk(c) && TagsOk(c, st.tags) && Sized(c, st.counters) && st.pending == map[]
    requires FreshSorted(c, st.tags, batch)
    ensures var ss := Steps(c, st, batch, max);
            IsCounterTrace(CountersOf(ss), FilledOf(ss), Offers(c, ss, batch, max), c.numSets * 8)
  {
    var ss := Steps(c, st, batch, max);
    var cs, fs, os := CountersOf(ss), FilledOf(ss), Offers(c, ss, batch, max);
    forall i | 0 <= i < |os|
      ensures forall x :: x in fs[i] ==> x < c.numSets * 8 && cs[i][x] >= os[i].priority
      ensures cs[i + 1] == if os[i].reached then MissCounters(cs[i], fs[i], os[i].set_ * 8, os[i].priority) else cs[i]
    {
      StepCounters(c, st, batch, max, i);
    }
  }

  /** Insert is optimal per set, whatever the update limit: a set's counters end as the eight largest of its
      decayed counters and the priorities of the keys that reached it. */
  lemma InsertKeepsTop8(c: Config, st: Insertion, batch: seq<Candidate>, max: nat, s: nat)
    requires HashOk(c) && TagsOk(c, st.tags) && Sized(c, st.counters) && st.pending == map[]
    requires FreshSorted(c, st.tags, batch) && s < c.numSets
    ensures IsTop8(SetCounters(InsertUpTo(c, st, batch, max, |batch|).counters, s),
                   SetCounters(st.counters, s) + Offered(Offers(c, Steps(c, st, batch, max), batch, max), s))
  {
    TraceOfBatch(c, st, batch, max);
    var ss := Steps(c, st, batch, max);
    var os := Offers(c, ss, batch, max);
    TraceTop(CountersOf(ss), FilledOf(ss), os, c.numSets * 8, s, |batch|);
    assert os[..|batch|] == os;
    assert ss[0] == st;
  }

  /** A batch of at most `max` keys is never cut off: every key is reached. */
  lemma {:induction false} NeverCutOff(c: Config, st: Insertion, batch: seq<Candidate>, max: nat, n: nat)
    requires Sized(c, st.tags) && Sized(c, st.counters) && st.pending == map[] && n <= |batch| <= max
    ensures |InsertUpTo(c, st, batch, max, n).pending| <= n
  {
    if n > 0 { NeverCutOff(c, st, batch, max, n - 1); }
  }

  ghost function AllOffers(c: Config, batch: seq<Candidate>): (os: seq<Offer>)
    ensures |os| == |batch|
  {
    seq(|batch|, i requires 0 <= i < |batch| => Offer(c.setIndex(batch[i].key), batch[i].priority, true))
  }

  /** The interface's promise for a batch of at most `max` keys: every set ends with the eight largest among
      its decayed counters and all the batch priorities that map to it. */
  lemma InsertIsOptimal(c: Config, st: Insertion, batch: seq<Candidate>, max: nat, s: nat)
    requires HashOk(c) && TagsOk(c, st.tags) && Sized(c, st.counters) && st.pending == map[]
    requires FreshSorted(c, st.tags, batch) && |batch| <= max && s < c.numSets
    ensures IsTop8(SetCounters(InsertUpTo(c, st, batch, max, |batch|).counters, s),
                   SetCounters(st.counters, s) + Offered(AllOffers(c, batch), s))
  {
    InsertKeepsTop8(c, st, batch, max, s);
    var ss := Steps(c, st, batch, max);
    forall i | 0 <= i < |batch| ensures |ss[i].pending| < max { NeverCutOff(c, st, batch, max, i); }
    assert Offers(c, ss, batch, max) == AllOffers(c, batch);
  }

  /** The insert batch made of a histogram's bins. */
  ghost function BatchOf(bins: seq<Histogram.Bin>, total: nat, rowAt: int -> Row): (batch: seq<Candidate>)
    requires total > 0
    ensures |batch| == |bins|
  {
    seq(|bins|, i requires 0 <= i < |bins| =>
      Candidate(bins[i].key, (bins[i].count as real) / (total as real), rowAt(bins[i].data)))
  }

  /** Histogram and insert together: when none of the looked-up keys is resident yet, inserting the histogram
      of a lookup leaves every set with the most frequent keys it could keep. */
  lemma HistogramInsertIsOptimal(c: Config, st: Insertion, indices: seq<int>, linear: bool, bins: seq<Histogram.Bin>,
                                 rowAt: int -> Row, max: nat, s: nat)
    requires HashOk(c) && TagsOk(c, st.tags) && Sized(c, st.counters) && st.pending == map[] && s < c.numSets
    requires Histogram.BinsOk(indices, linear, bins) && Histogram.Descending(bins) && |indices| > 0 && |bins| <= max
    requires forall k :: k in indices ==> Usable(c, k) && !Resident(c, st.tags, k)
    ensures var batch := BatchOf(bins, |indices|, rowAt);
            IsTop8(SetCounters(InsertUpTo(c, st, batch, max, |batch|).counters, s),
                   SetCounters(st.counters, s) + Offered(AllOffers(c, batch), s))
  {
    var batch := BatchOf(bins, |indices|, rowAt);
    forall i, j | 0 <= i < j < |batch| ensures batch[i].key != batch[j].key && batch[i].priority >= batch[j].priority {
      Histogram.DivMono(bins[i].count, bins[j].count, |indices|);
    }
    assert FreshSorted(c, st.tags, batch);
    InsertIsOptimal(c, st, batch, max, s);
  }
}
