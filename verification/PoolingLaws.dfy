/** What pooling computes, said without the loops: sums and means of lists of numbers, and what follows for the output
    of a host lookup. */
module PoolingLaws {

  import Arith
  import opened Common
  import opened HostLookup
  import opened Pooling

  // ---------------------------------------------------------------------------------------------
  // Sums of lists.

  function SumOf(xs: seq<real>): real {
    if xs == [] then 0.0 else SumOf(xs[..|xs| - 1]) + xs[|xs| - 1]
  }

  function Times(w: real, x: real): real {
    w * x
  }

  function Products(ws: seq<real>, xs: seq<real>): (ps: seq<real>)
    requires |ws| == |xs|
    ensures |ps| == |xs|
  {
    seq(|xs|, i requires 0 <= i < |xs| => Times(ws[i], xs[i]))
  }

  lemma ProductsPush(ws: seq<real>, xs: seq<real>)
    requires |ws| == |xs| > 0
    ensures var n := |xs| - 1;
            SumOf(Products(ws, xs)) == SumOf(Products(ws[..n], xs[..n])) + Times(ws[n], xs[n])
  {
    var n := |xs| - 1;
    assert Products(ws, xs)[..n] == Products(ws[..n], xs[..n]);
  }

  /** `y` is the pool of the numbers `xs` with weights `ws`: a sum or weighted sum, or what times the count or the total
      weight gives one; zero for an empty list and for weights that add up to zero. */
  predicate IsPool(mode: Mode, ws: seq<real>, xs: seq<real>, y: real)
    requires |ws| == |xs|
  {
    match mode
    case Sum => y == SumOf(xs)
    case Mean => if xs == [] then y == 0.0 else Times(y, |xs| as real) == SumOf(xs)
    case WeightedSum => y == SumOf(Products(ws, xs))
    case WeightedMean => if SumOf(ws) == 0.0 then y == 0.0 else Times(y, SumOf(ws)) == SumOf(Products(ws, xs))
    case Concatenate => |xs| == 1 ==> y == xs[0]
  }

  /** There is one such number, so this says all there is to say. */
  lemma PoolUnique(mode: Mode, ws: seq<real>, xs: seq<real>, y: real, z: real)
    requires |ws| == |xs| && mode != Concatenate && IsPool(mode, ws, xs, y) && IsPool(mode, ws, xs, z)
    ensures y == z
  {
    if mode == Mean && xs != [] {
      Cancel(y, z, |xs| as real);
    } else if mode == WeightedMean && SumOf(ws) != 0.0 {
      Cancel(y, z, SumOf(ws));
    }
  }

  lemma Cancel(y: real, z: real, d: real)
    requires Times(y, d) == Times(z, d) && d != 0.0
    ensures y == z
  {
    assert y * d / d == y && z * d / d == z;
  }

  lemma Divide(x: real, d: real)
    requires d != 0.0
    ensures Times(x / d, d) == x
  {
  }

  // ---------------------------------------------------------------------------------------------
  // The pooled value is the pool of the decoded values.

  /** Value `e` of the decoded rows of the keys `lo..hi`. */
  function ValuesOf(b: Batch, e: nat, lo: nat, hi: nat): (xs: seq<real>)
    requires BatchOk(b) && e < b.width && lo <= hi <= |b.rows|
    ensures |xs| == hi - lo
  {
    seq(hi - lo, i requires 0 <= i < hi - lo => Decode(b.format, b.width, b.rows[lo + i])[e])
  }

  /** The weights that were given, or ones. */
  function WeightsOf(b: Batch, lo: nat, hi: nat): (ws: seq<real>)
    requires BatchOk(b) && lo <= hi <= |b.rows|
    ensures |ws| == hi - lo
  {
    if b.mode == WeightedSum || b.mode == WeightedMean then b.weights[lo..hi] else seq(hi - lo, _ => 1.0)
  }

  lemma ValueAt(b: Batch, e: nat, lo: nat, hi: nat, k: nat)
    requires BatchOk(b) && e < b.width && lo <= k < hi <= |b.rows|
    ensures ValuesOf(b, e, lo, hi)[k - lo] == Value(b.format, b.width, b.rows[k], e)
  {
    assert Decode(b.format, b.width, b.rows[k])[e] == Value(b.format, b.width, b.rows[k], e);
    assert lo + (k - lo) == k;
  }

  lemma ListsPush(b: Batch, e: nat, lo: nat, hi: nat)
    requires BatchOk(b) && e < b.width && lo < hi <= |b.rows|
    ensures var n, ws, xs := hi - lo - 1, WeightsOf(b, lo, hi), ValuesOf(b, e, lo, hi);
            && ws[..n] == WeightsOf(b, lo, hi - 1) && ws[n] == Weight(b, hi - 1)
            && xs[..n] == ValuesOf(b, e, lo, hi - 1) && xs[n] == Value(b.format, b.width, b.rows[hi - 1], e)
  {
    ValueAt(b, e, lo, hi, hi - 1);
  }

  lemma TotalNext(b: Batch, e: nat, lo: nat, hi: nat)
    requires BatchOk(b) && e < b.width && lo < hi <= |b.rows|
    ensures Total(b, e, lo, hi) ==
            Total(b, e, lo, hi - 1) + Times(Weight(b, hi - 1), Value(b.format, b.width, b.rows[hi - 1], e))
  {
  }

  lemma {:induction false} TotalIs(b: Batch, e: nat, lo: nat, hi: nat)
    requires BatchOk(b) && e < b.width && lo <= hi <= |b.rows|
    ensures Total(b, e, lo, hi) == SumOf(Products(WeightsOf(b, lo, hi), ValuesOf(b, e, lo, hi)))
    decreases hi
  {
    if lo < hi {
      TotalIs(b, e, lo, hi - 1);
      TotalNext(b, e, lo, hi);
      ListsPush(b, e, lo, hi);
      ProductsPush(WeightsOf(b, lo, hi), ValuesOf(b, e, lo, hi));
    }
  }

  lemma {:induction false} WeightTotalIs(b: Batch, lo: nat, hi: nat)
    requires BatchOk(b) && lo <= hi <= |b.rows|
    ensures WeightTotal(b, lo, hi) == SumOf(WeightsOf(b, lo, hi))
    decreases hi
  {
    if lo < hi {
      WeightTotalIs(b, lo, hi - 1);
      assert WeightsOf(b, lo, hi)[..hi - lo - 1] == WeightsOf(b, lo, hi - 1);
    }
  }

  lemma UnitProducts(ws: seq<real>, xs: seq<real>)
    requires |ws| == |xs| && forall i :: 0 <= i < |ws| ==> ws[i] == 1.0
    ensures Products(ws, xs) == xs
  {
    forall i | 0 <= i < |xs|
      ensures Products(ws, xs)[i] == xs[i]
    {
      OneTimes(xs[i]);
    }
  }

  lemma OneTimes(x: real)
    ensures Times(1.0, x) == x
  {
  }

  /** A bag that is not empty, by its sum of products and its total weight. */
  lemma PoolFrom(b: Batch, e: nat, lo: nat, hi: nat, ws: seq<real>, xs: seq<real>)
    requires BatchOk(b) && e < b.width && lo < hi <= |b.rows| && |ws| == |xs| == hi - lo
    requires Total(b, e, lo, hi) == SumOf(Products(ws, xs)) && WeightTotal(b, lo, hi) == SumOf(ws)
    requires !Weighted(b.mode) ==> Products(ws, xs) == xs
    requires |xs| == 1 ==> SumOf(xs) == xs[0]
    ensures IsPool(b.mode, ws, xs, Pooled(b, e, lo, hi))
  {
    match b.mode
    case Mean => Divide(SumOf(xs), |xs| as real);
    case WeightedMean => if SumOf(ws) != 0.0 { Divide(SumOf(Products(ws, xs)), SumOf(ws)); }
    case _ =>
  }

  lemma SumSingle(xs: seq<real>)
    requires |xs| == 1
    ensures SumOf(xs) == xs[0]
  {
    assert xs[..0] == [];
  }

  /** In every mode, for bags of any size, the pooled value is the pool of the decoded values of the bag. */
  lemma PooledIsPool(b: Batch, e: nat, lo: nat, hi: nat)
    requires BatchOk(b) && e < b.width && lo <= hi <= |b.rows|
    ensures IsPool(b.mode, WeightsOf(b, lo, hi), ValuesOf(b, e, lo, hi), Pooled(b, e, lo, hi))
  {
    var ws, xs := WeightsOf(b, lo, hi), ValuesOf(b, e, lo, hi);
    if lo < hi {
      TotalIs(b, e, lo, hi);
      WeightTotalIs(b, lo, hi);
      if !Weighted(b.mode) {
        UnitProducts(ws, xs);
      }
      if |xs| == 1 {
        SumSingle(xs);
      }
      PoolFrom(b, e, lo, hi, ws, xs);
    }
  }

  // ---------------------------------------------------------------------------------------------
  // Laws.

  lemma TimesNext(v: real, n: nat)
    ensures Times(v, (n + 1) as real) == Times(v, n as real) + v
  {
    assert (n + 1) as real == n as real + 1.0;
    assert v * (n as real + 1.0) == v * n as real + v;
  }

  lemma Distribute(a: real, b: real, v: real)
    ensures Times(v, a + b) == Times(v, a) + Times(b, v)
  {
  }

  lemma {:induction false} SumConstant(xs: seq<real>, v: real)
    requires forall i :: 0 <= i < |xs| ==> xs[i] == v
    ensures SumOf(xs) == Times(v, |xs| as real)
  {
    if xs != [] {
      SumConstant(xs[..|xs| - 1], v);
      TimesNext(v, |xs| - 1);
    }
  }

  lemma {:induction false} SumScaled(ws: seq<real>, xs: seq<real>, v: real)
    requires |ws| == |xs| && forall i :: 0 <= i < |xs| ==> xs[i] == v
    ensures SumOf(Products(ws, xs)) == Times(v, SumOf(ws))
  {
    if xs != [] {
      var n := |xs| - 1;
      SumScaled(ws[..n], xs[..n], v);
      ProductsPush(ws, xs);
      Distribute(SumOf(ws[..n]), ws[n], v);
    }
  }

  /** Equal numbers pool to that number under both means, to the count times it under a sum, and to the total weight
      times it under a weighted one. */
  lemma EqualRows(mode: Mode, ws: seq<real>, xs: seq<real>, y: real, v: real)
    requires |ws| == |xs| > 0 && mode != Concatenate && IsPool(mode, ws, xs, y)
    requires forall i :: 0 <= i < |xs| ==> xs[i] == v
    ensures mode == Sum ==> y == Times(v, |xs| as real)
    ensures mode == Mean || (mode == WeightedMean && SumOf(ws) != 0.0) ==> y == v
    ensures mode == WeightedSum ==> y == Times(v, SumOf(ws))
  {
    SumConstant(xs, v);
    SumScaled(ws, xs, v);
    if mode == Mean {
      Cancel(y, v, |xs| as real);
    } else if mode == WeightedMean && SumOf(ws) != 0.0 {
      Cancel(y, v, SumOf(ws));
    }
  }

  lemma {:induction false} SumBetween(ws: seq<real>, xs: seq<real>, least: real, most: real)
    requires |ws| == |xs| && forall i :: 0 <= i < |xs| ==> least <= xs[i] <= most && ws[i] >= 0.0
    ensures Times(least, SumOf(ws)) <= SumOf(Products(ws, xs)) <= Times(most, SumOf(ws)) && SumOf(ws) >= 0.0
  {
    if xs != [] {
      var n := |xs| - 1;
      SumBetween(ws[..n], xs[..n], least, most);
      ProductsPush(ws, xs);
      Between(ws[n], xs[n], least, most);
      Distribute(SumOf(ws[..n]), ws[n], least);
      Distribute(SumOf(ws[..n]), ws[n], most);
    }
  }

  lemma Between(w: real, x: real, least: real, most: real)
    requires w >= 0.0 && least <= x <= most
    ensures Times(w, least) <= Times(w, x) <= Times(w, most)
  {
    assert w * (x - least) >= 0.0 && w * (most - x) >= 0.0;
  }

  lemma NotNegative(a: real, d: real)
    requires d > 0.0 && a * d >= 0.0
    ensures a >= 0.0
  {
    assert a * d / d == a;
  }

  lemma Ordered(y: real, d: real, least: real, most: real)
    requires d > 0.0 && Times(least, d) <= Times(y, d) <= Times(most, d)
    ensures least <= y <= most
  {
    assert (y - least) * d == y * d - least * d && (most - y) * d == most * d - y * d;
    NotNegative(y - least, d);
    NotNegative(most - y, d);
  }

  /** A mean lies between the least and the largest number, and so does a weighted one whose weights are not negative
      and not all zero. */
  lemma MeanBetween(mode: Mode, ws: seq<real>, xs: seq<real>, y: real, least: real, most: real)
    requires |ws| == |xs| > 0 && (mode == Mean || mode == WeightedMean) && IsPool(mode, ws, xs, y)
    requires forall i :: 0 <= i < |xs| ==> least <= xs[i] <= most
    requires mode == WeightedMean ==> SumOf(ws) != 0.0 && forall i :: 0 <= i < |ws| ==> ws[i] >= 0.0
    ensures least <= y <= most
  {
    if mode == Mean {
      var ones := seq(|xs|, _ => 1.0);
      SumConstant(ones, 1.0);
      OneTimes(|xs| as real);
      UnitProducts(ones, xs);
      SumBetween(ones, xs, least, most);
      Ordered(y, |xs| as real, least, most);
    } else {
      SumBetween(ws, xs, least, most);
      Ordered(y, SumOf(ws), least, most);
    }
  }

  /** Sum and mean are the weighted forms with unit weights. */
  lemma UnitWeights(mode: Mode, weighted: Mode, ws: seq<real>, ones: seq<real>, xs: seq<real>, y: real)
    requires |ws| == |ones| == |xs| > 0 && forall i :: 0 <= i < |ones| ==> ones[i] == 1.0
    requires (mode == Sum && weighted == WeightedSum) || (mode == Mean && weighted == WeightedMean)
    ensures IsPool(mode, ws, xs, y) <==> IsPool(weighted, ones, xs, y)
  {
    SumConstant(ones, 1.0);
    OneTimes(|xs| as real);
    UnitProducts(ones, xs);
  }

  // ---------------------------------------------------------------------------------------------
  // Quantized rows.

  /** The decoded value is the one that was quantized: `(v - offset) / scale`, without an offset for the signed
      format. */
  lemma DecodesQuantized(format: Format, width: nat, row: Row, e: nat, v: real)
    requires RowOk(format, width, row) && e < width && format != Floats && row[width] != 0.0
    requires row[e] == (v - if format == QUint8 then row[width + 1] else 0.0) / row[width]
    ensures Decode(format, width, row)[e] == v
  {
    Divide(v - if format == QUint8 then row[width + 1] else 0.0, row[width]);
  }

  /** Float rows are their values. */
  lemma DecodesFloats(width: nat, row: Row)
    requires RowOk(Floats, width, row)
    ensures Decode(Floats, width, row) == row
  {
  }

  // ---------------------------------------------------------------------------------------------
  // The output of a lookup.

  /** The first key of bag `b` and the one after its last, as the caller gave them. */
  function BagOf(p: Params, b: nat): (int, int)
    requires p.kind == FixedKind ==> p.indices != []
    requires p.kind == CsrKind ==> b + 1 < |p.indices|
  {
    match p.kind
    case FixedKind => (b * p.indices[0], (b + 1) * p.indices[0])
    case CsrKind => (p.indices[b], p.indices[b + 1])
    case OtherKind => (0, 0)
  }

  lemma BagIs(q: Query, rows: seq<Row>, b: nat)
    requires OutputOk(q, rows) && PlanOf(q).Reduce? && b < OutputCount(q)
    ensures var p := q.params.value;
            && (p.kind == FixedKind ==> p.indices != []) && (p.kind == CsrKind ==> b + 1 < |p.indices|)
            && BagStart(PlanOf(q).sparse, b) == BagOf(p, b).0 && BagEnd(PlanOf(q).sparse, b) == BagOf(p, b).1
  {
  }

  /** Every value of every output row of a reduction is the pool of the decoded effective rows of its bag, an empty one
      giving zero. */
  lemma LookupPools(q: Query, scratch: seq<Row>, filled: seq<Row>, before: seq<Row>, out: seq<Row>, b: nat, e: nat)
    requires PlanOf(q).Reduce? && |scratch| == |q.keys| && OutputOk(q, Effective(q, scratch))
    requires FillStage(q, scratch, filled) && OutputStage(q, filled, before, out)
    requires b < OutputCount(q) && e < q.width
    ensures |out| == OutputCount(q) && |out[b]| == q.width
    ensures var p := q.params.value;
            && (p.kind == FixedKind ==> p.indices != []) && (p.kind == CsrKind ==> b + 1 < |p.indices|)
            && PoolOfBag(BatchOf(q, p, Effective(q, scratch)), e, BagOf(p, b), out[b][e])
  {
    LookupIsSpec(q, scratch, filled, before, out);
    var rows, s, n := Effective(q, scratch), PlanOf(q).sparse, PlanOf(q).numBags;
    BagIs(q, rows, b);
    BagInside(s, n, |rows|, b);
    PoolOfBagIs(BatchOf(q, q.params.value, rows), e, BagOf(q.params.value, b));
  }

  ghost predicate PoolOfBag(batch: Batch, e: nat, bag: (int, int), y: real) {
    && BatchOk(batch) && e < batch.width
    && if bag.1 <= bag.0 then y == 0.0
       else 0 <= bag.0 && bag.1 <= |batch.rows| &&
            IsPool(batch.mode, WeightsOf(batch, bag.0, bag.1), ValuesOf(batch, e, bag.0, bag.1), y)
  }

  lemma PoolOfBagIs(batch: Batch, e: nat, bag: (int, int))
    requires BatchOk(batch) && e < batch.width && (bag.0 < bag.1 ==> 0 <= bag.0 && bag.1 <= |batch.rows|)
    ensures PoolOfBag(batch, e, bag, PooledRow(batch, bag.0, bag.1)[e])
  {
    if bag.0 < bag.1 {
      PooledIsPool(batch, e, bag.0, bag.1);
    }
  }

  /** The bags of a reduction are acceptable: a list of offsets, or a positive number that divides the number of
      keys. */
  predicate BagsGiven(q: Query, p: Params) {
    && p.indices != []
    && match p.kind
       case FixedKind => p.indices[0] > 0 && |q.keys| % p.indices[0] == 0
       case CsrKind => true
       case OtherKind => false
  }

  /** The output type is acceptable: a float type, asked for or by default, or for a concatenation that of the table. */
  predicate OutputGiven(q: Query, p: Params) {
    || p.output == Float32 || p.output == Float16 || p.output == Unknown
    || (p.mode == Concatenate && p.output == q.dtype)
  }

  /** A lookup is refused if and only if there are no keys, the table's type is not known, or output type or bags are
      not acceptable. */
  lemma RefusedIff(q: Query)
    ensures PlanOf(q) == Refused <==>
            || q.keys == []
            || (q.params.Some? && q.dtype == Unknown)
            || (q.params.Some? && !OutputGiven(q, q.params.value))
            || (q.params.Some? && q.params.value.mode != Concatenate && !BagsGiven(q, q.params.value))
  {
  }

  /** A concatenation passes raw rows through if the output has the type of the table, which a float table has by
      default, and decodes them otherwise. */
  lemma ConcatenateIs(q: Query, scratch: seq<Row>, filled: seq<Row>, before: seq<Row>, out: seq<Row>, k: nat)
    requires PlanOf(q) != Refused && q.params.Some? && q.params.value.mode == Concatenate
    requires |scratch| == |q.keys| && OutputOk(q, Effective(q, scratch)) && k < |q.keys|
    requires FillStage(q, scratch, filled) && OutputStage(q, filled, before, out)
    ensures |out| == |q.keys|
    ensures var p, row := q.params.value, Effective(q, scratch)[k];
            if p.output == q.dtype || (p.output == Unknown && (q.dtype == Float32 || q.dtype == Float16))
            then out[k] == row
            else out[k] == Decode(FormatOf(q.dtype), q.width, row)
  {
    LookupIsSpec(q, scratch, filled, before, out);
  }

  /** Rows of a quantized table end with a scale, and with an offset if unsigned; rows of the other tables are their
      values. */
  lemma DecodesTable(q: Query, row: Row, e: nat)
    requires RawOk(q, row) && e < q.width
    ensures |row| == q.width + if q.dtype == QInt8Row then 1 else if q.dtype == QUint8Row then 2 else 0
    ensures Decode(FormatOf(q.dtype), q.width, row)[e] ==
            if q.dtype == QInt8Row then Times(row[e], row[q.width])
            else if q.dtype == QUint8Row then Times(row[e], row[q.width]) + row[q.width + 1]
            else row[e]
  {
  }

  /** A list of offsets has one more than there are bags; bags of a fixed size use up the keys; otherwise there is a row
      for each key. */
  lemma OutputCountIs(q: Query)
    requires PlanOf(q) != Refused
    ensures if q.params.Some? && q.params.value.mode != Concatenate then
              q.params.value.indices != [] &&
              if q.params.value.kind == CsrKind then OutputCount(q) + 1 == |q.params.value.indices|
              else OutputCount(q) * q.params.value.indices[0] == |q.keys|
            else OutputCount(q) == |q.keys|
  {
    if PlanOf(q).Reduce? && q.params.value.kind == FixedKind {
      Arith.DivBound(|q.keys|, q.params.value.indices[0]);
    }
  }
}
