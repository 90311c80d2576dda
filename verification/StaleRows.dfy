/** When the output of a host lookup depends on what its buffer held before. */
module StaleRows {

  import opened Common
  import opened HostLookup
  import opened Pooling

  // ---------------------------------------------------------------------------------------------
  // What a pooled value depends on.

  /** Two batches that differ in their rows only. */
  predicate SameBut(b: Batch, b': Batch) {
    b' == b.(rows := b'.rows) && |b'.rows| == |b.rows|
  }

  lemma {:induction false} WeightTotalSame(b: Batch, b': Batch, lo: nat, hi: nat)
    requires BatchOk(b) && BatchOk(b') && SameBut(b, b') && lo <= hi <= |b.rows|
    ensures WeightTotal(b', lo, hi) == WeightTotal(b, lo, hi)
    decreases hi
  {
    if lo < hi {
      WeightTotalSame(b, b', lo, hi - 1);
    }
  }

  /** Keys of weight zero do not count. */
  lemma {:induction false} TotalSame(b: Batch, b': Batch, e: nat, lo: nat, hi: nat)
    requires BatchOk(b) && BatchOk(b') && SameBut(b, b') && e < b.width && lo <= hi <= |b.rows|
    requires forall k :: lo <= k < hi && Weight(b, k) != 0.0 ==> b'.rows[k] == b.rows[k]
    ensures Total(b', e, lo, hi) == Total(b, e, lo, hi)
    decreases hi
  {
    if lo < hi {
      TotalSame(b, b', e, lo, hi - 1);
    }
  }

  lemma LastTerm(t: real, t': real, change: real, w: real, v: real, v': real, one: real)
    requires t' == t + change && v' == v + one && (one == 0.0 || one == 1.0)
    ensures t' + w * v' == t + w * v + (if one == 1.0 then change + w else change)
  {
    assert w * (v + 1.0) == w * v + w;
  }

  /** A row with a value larger by one raises the total by its weight. */
  lemma {:induction false} TotalChange(b: Batch, b': Batch, e: nat, lo: nat, hi: nat, k: nat)
    requires BatchOk(b) && BatchOk(b') && SameBut(b, b') && e < b.width && lo <= hi <= |b.rows| && k < |b.rows|
    requires forall i :: 0 <= i < |b.rows| && i != k ==> b'.rows[i] == b.rows[i]
    requires Value(b.format, b.width, b'.rows[k], e) == Value(b.format, b.width, b.rows[k], e) + 1.0
    ensures Total(b', e, lo, hi) == Total(b, e, lo, hi) + if lo <= k < hi then Weight(b, k) else 0.0
    decreases hi
  {
    if lo < hi {
      TotalChange(b, b', e, lo, hi - 1, k);
      var v, v' := Value(b.format, b.width, b.rows[hi - 1], e), Value(b.format, b.width, b'.rows[hi - 1], e);
      LastTerm(Total(b, e, lo, hi - 1), Total(b', e, lo, hi - 1), if lo <= k < hi - 1 then Weight(b, k) else 0.0,
               Weight(b, hi - 1), v, v', if k == hi - 1 then 1.0 else 0.0);
    }
  }

  /** Key `k` counts in the bag `lo..hi`. */
  ghost predicate Counts(b: Batch, lo: int, hi: int, k: nat)
    requires BatchOk(b) && (lo < hi ==> 0 <= lo && hi <= |b.rows|)
  {
    lo <= k < hi && Weight(b, k) != 0.0 && (b.mode == WeightedMean ==> WeightTotal(b, lo, hi) != 0.0)
  }

  lemma PooledSame(b: Batch, b': Batch, e: nat, lo: int, hi: int)
    requires BatchOk(b) && BatchOk(b') && SameBut(b, b') && e < b.width && (lo < hi ==> 0 <= lo && hi <= |b.rows|)
    requires forall k: nat :: k < |b.rows| && Counts(b, lo, hi, k) ==> b'.rows[k] == b.rows[k]
    ensures Pooled(b', e, lo, hi) == Pooled(b, e, lo, hi)
  {
    if lo < hi {
      WeightTotalSame(b, b', lo, hi);
      if b.mode != WeightedMean || WeightTotal(b, lo, hi) != 0.0 {
        forall k | lo <= k < hi && Weight(b, k) != 0.0
          ensures b'.rows[k] == b.rows[k]
        {
          assert Counts(b, lo, hi, k);
        }
        TotalSame(b, b', e, lo, hi);
      }
    }
  }

  lemma PooledDiffers(b: Batch, b': Batch, e: nat, lo: int, hi: int, k: nat)
    requires BatchOk(b) && BatchOk(b') && SameBut(b, b') && e < b.width && (lo < hi ==> 0 <= lo && hi <= |b.rows|)
    requires k < |b.rows| && Counts(b, lo, hi, k) && forall i :: 0 <= i < |b.rows| && i != k ==> b'.rows[i] == b.rows[i]
    requires Value(b.format, b.width, b'.rows[k], e) == Value(b.format, b.width, b.rows[k], e) + 1.0
    ensures Pooled(b', e, lo, hi) != Pooled(b, e, lo, hi)
  {
    WeightTotalSame(b, b', lo, hi);
    TotalChange(b, b', e, lo, hi, k);
    assert Total(b', e, lo, hi) == Total(b, e, lo, hi) + Weight(b, k);
    QuotientsDiffer(Total(b, e, lo, hi), Weight(b, k), (hi - lo) as real);
    QuotientsDiffer(Total(b, e, lo, hi), Weight(b, k), WeightTotal(b, lo, hi));
  }

  lemma QuotientsDiffer(x: real, w: real, d: real)
    requires w != 0.0
    ensures d != 0.0 ==> (x + w) / d != x / d
  {
    if d != 0.0 {
      assert (x + w) / d * d == x + w && x / d * d == x;
    }
  }

  // ---------------------------------------------------------------------------------------------
  // What the output depends on.

  /** The row of key `k` shows in the output. */
  ghost predicate Matters(q: Query, k: nat)
    requires Proper(q) && k < |q.keys|
  {
    match PlanOf(q)
    case Refused => false
    case Raw => q.width + MetaCount(FormatOf(q.dtype)) > 0
    case Convert => q.width > 0
    case Reduce(s, n) => q.width > 0 && exists b: nat :: b < n && BagMatters(q, b, k)
  }

  /** It is in bag `b`, with a weight other than zero, and a weighted mean has a weight total other than zero. */
  ghost predicate BagMatters(q: Query, b: nat, k: nat)
    requires Proper(q) && PlanOf(q).Reduce? && b < PlanOf(q).numBags && k < |q.keys|
  {
    var batch := Blank(q);
    var s, n := PlanOf(q).sparse, PlanOf(q).numBags;
    ProperBags(q);
    BagInside(s, n, |q.keys|, b);
    Counts(batch, BagStart(s, b), BagEnd(s, b), k)
  }

  /** A row of zeros, and one whose values are all one. */
  function ZeroRow(q: Query): (r: Row)
    ensures RawOk(q, r)
  {
    seq(q.width + MetaCount(FormatOf(q.dtype)), _ => 0.0)
  }

  function OneRow(q: Query): (r: Row)
    ensures RawOk(q, r)
  {
    seq(q.width + MetaCount(FormatOf(q.dtype)), e => if e <= q.width then 1.0 else 0.0)
  }

  lemma OneIsMore(q: Query, e: nat)
    requires e < q.width
    ensures Value(FormatOf(q.dtype), q.width, OneRow(q), e) == Value(FormatOf(q.dtype), q.width, ZeroRow(q), e) + 1.0
  {
  }

  function ZeroRows(q: Query): (r: seq<Row>)
    ensures |r| == |q.keys| && forall k :: 0 <= k < |r| ==> r[k] == ZeroRow(q)
  {
    seq(|q.keys|, _ => ZeroRow(q))
  }

  /** The batch of a query with rows of zeros: weights and bags are those of the query. */
  function Blank(q: Query): (b: Batch)
    requires Proper(q) && PlanOf(q).Reduce?
    ensures BatchOk(b) && |b.rows| == |q.keys|
  {
    BatchOf(q, q.params.value, ZeroRows(q))
  }

  lemma ProperBags(q: Query)
    requires Proper(q) && PlanOf(q).Reduce?
    ensures BagsOk(PlanOf(q).sparse, PlanOf(q).numBags, |q.keys|)
  {
    if PlanOf(q).sparse.Fixed? {
      FixedBags(q);
    }
  }

  ghost function Output(q: Query, scratch: seq<Row>): seq<Row>
    requires Proper(q) && ScratchOk(q, scratch)
  {
    EffectiveOk(q, scratch);
    OutputRows(q, Effective(q, scratch))
  }

  ghost predicate Independent(q: Query)
    requires Proper(q)
  {
    forall s: seq<Row>, t: seq<Row> :: ScratchOk(q, s) && ScratchOk(q, t) ==> Output(q, s) == Output(q, t)
  }

  ghost predicate NoMissMatters(q: Query)
    requires Proper(q)
  {
    forall k: nat :: k < |q.keys| && !Hit(q, k) ==> !Matters(q, k)
  }

  // ---------------------------------------------------------------------------------------------
  // The exact condition.

  /** A counted key is counted whatever the rows are. */
  lemma CountsSame(q: Query, rows: seq<Row>, lo: int, hi: int, k: nat)
    requires Proper(q) && PlanOf(q).Reduce? && |rows| == |q.keys| && k < |rows|
    requires BatchOk(BatchOf(q, q.params.value, rows)) && (lo < hi ==> 0 <= lo && hi <= |rows|)
    ensures Counts(BatchOf(q, q.params.value, rows), lo, hi, k) == Counts(Blank(q), lo, hi, k)
  {
    if lo < hi {
      WeightTotalSame(Blank(q), BatchOf(q, q.params.value, rows), lo, hi);
    }
  }

  /** An output row is the same for rows that agree wherever they matter. */
  lemma RowSame(q: Query, x: seq<Row>, y: seq<Row>, b: nat)
    requires Proper(q) && OutputOk(q, x) && OutputOk(q, y) && b < OutputCount(q)
    requires forall k: nat :: k < |q.keys| && Matters(q, k) ==> x[k] == y[k]
    ensures OutputRow(q, x, b) == OutputRow(q, y, b)
  {
    match PlanOf(q)
    case Raw => assert !Matters(q, b) ==> x[b] == [] == y[b];
    case Convert => assert !Matters(q, b) ==> q.width == 0;
    case Reduce(s, n) => BagSame(q, x, y, b);
    case Refused =>
  }

  lemma BagSame(q: Query, x: seq<Row>, y: seq<Row>, b: nat)
    requires Proper(q) && OutputOk(q, x) && OutputOk(q, y) && PlanOf(q).Reduce? && b < PlanOf(q).numBags
    requires forall k: nat :: k < |q.keys| && Matters(q, k) ==> x[k] == y[k]
    ensures OutputRow(q, x, b) == OutputRow(q, y, b)
  {
    var s, n := PlanOf(q).sparse, PlanOf(q).numBags;
    var u, v := BatchOf(q, q.params.value, x), BatchOf(q, q.params.value, y);
    BagInside(s, n, |q.keys|, b);
    var lo, hi := BagStart(s, b), BagEnd(s, b);
    forall e | 0 <= e < q.width
      ensures Pooled(u, e, lo, hi) == Pooled(v, e, lo, hi)
    {
      forall k: nat | k < |q.keys| && Counts(v, lo, hi, k)
        ensures u.rows[k] == v.rows[k]
      {
        CountsSame(q, y, lo, hi, k);
        assert BagMatters(q, b, k);
      }
      PooledSame(v, u, e, lo, hi);
    }
  }

  /** Two buffers that differ at one missed key that matters give different outputs. */
  lemma MissShows(q: Query, k: nat)
    requires Proper(q) && k < |q.keys| && !Hit(q, k) && q.dflt == None && Matters(q, k)
    ensures ScratchOk(q, ZeroRows(q)) && ScratchOk(q, ZeroRows(q)[k := OneRow(q)])
    ensures Output(q, ZeroRows(q)) != Output(q, ZeroRows(q)[k := OneRow(q)])
  {
    var s, t := ZeroRows(q), ZeroRows(q)[k := OneRow(q)];
    EffectiveOk(q, s);
    EffectiveOk(q, t);
    var x, y := Effective(q, s), Effective(q, t);
    assert x[k] == ZeroRow(q) && y[k] == OneRow(q);
    assert forall i :: 0 <= i < |x| && i != k ==> x[i] == y[i];
    match PlanOf(q)
    case Raw =>
      assert OutputRow(q, x, k)[0] != OutputRow(q, y, k)[0];
      assert Output(q, s)[k] != Output(q, t)[k];
    case Convert =>
      OneIsMore(q, 0);
      assert OutputRow(q, x, k)[0] != OutputRow(q, y, k)[0];
      assert Output(q, s)[k] != Output(q, t)[k];
    case Reduce(sp, n) =>
      var b: nat :| b < n && BagMatters(q, b, k);
      BagShows(q, x, y, b, k);
      assert Output(q, s)[b] != Output(q, t)[b];
  }

  lemma BagShows(q: Query, x: seq<Row>, y: seq<Row>, b: nat, k: nat)
    requires Proper(q) && OutputOk(q, x) && OutputOk(q, y) && PlanOf(q).Reduce? && b < PlanOf(q).numBags
    requires k < |q.keys| && q.width > 0 && BagMatters(q, b, k)
    requires x[k] == ZeroRow(q) && y[k] == OneRow(q) && forall i :: 0 <= i < |x| && i != k ==> x[i] == y[i]
    ensures OutputRow(q, x, b) != OutputRow(q, y, b)
  {
    var s, n := PlanOf(q).sparse, PlanOf(q).numBags;
    BagInside(s, n, |q.keys|, b);
    var lo, hi := BagStart(s, b), BagEnd(s, b);
    CountsSame(q, x, lo, hi, k);
    OneIsMore(q, 0);
    PooledDiffers(BatchOf(q, q.params.value, x), BatchOf(q, q.params.value, y), 0, lo, hi, k);
    assert OutputRow(q, x, b)[0] != OutputRow(q, y, b)[0];
  }

  /** The output is independent of what the buffer held before if and only if there is a default row or no missed key
      matters. */
  lemma StaleIff(q: Query)
    requires Proper(q)
    ensures Independent(q) <==> q.dflt.Some? || NoMissMatters(q)
  {
    if q.dflt.Some? || NoMissMatters(q) {
      forall s: seq<Row>, t: seq<Row> | ScratchOk(q, s) && ScratchOk(q, t)
        ensures Output(q, s) == Output(q, t)
      {
        SameOutput(q, s, t);
      }
    }
    if Independent(q) && q.dflt == None {
      forall k: nat | k < |q.keys| && !Hit(q, k)
        ensures !Matters(q, k)
      {
        if Matters(q, k) {
          MissShows(q, k);
          assert false;
        }
      }
    }
  }

  lemma SameOutput(q: Query, s: seq<Row>, t: seq<Row>)
    requires Proper(q) && ScratchOk(q, s) && ScratchOk(q, t) && (q.dflt.Some? || NoMissMatters(q))
    ensures Output(q, s) == Output(q, t)
  {
    EffectiveOk(q, s);
    EffectiveOk(q, t);
    var x, y := Effective(q, s), Effective(q, t);
    forall k: nat | k < |q.keys| && Matters(q, k)
      ensures x[k] == y[k]
    {
      assert q.dflt.Some? || Hit(q, k);
    }
    forall b | 0 <= b < OutputCount(q)
      ensures OutputRow(q, x, b) == OutputRow(q, y, b)
    {
      RowSame(q, x, y, b);
    }
  }

  /** One missing key, no default row, a plain sum of one value: the output is what the buffer held. */
  lemma StaleExample()
    ensures var q := Query([7], map[], Float32, 1, None, Some(Params(Sum, FixedKind, [1], [], Unknown)), 1);
            Proper(q) && !Independent(q)
  {
    var q := Query([7], map[], Float32, 1, None, Some(Params(Sum, FixedKind, [1], [], Unknown)), 1);
    assert PlanOf(q) == Reduce(Fixed(1), 1);
    assert BagMatters(q, 0, 0);
    assert Matters(q, 0);
    StaleIff(q);
  }
}
