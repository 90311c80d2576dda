/** Reducing gathered rows to one row per bag. A raw row holds `width` values, followed for the quantized formats by a
    scale and, for the unsigned one, an offset. Numbers are real. */
module Pooling {

  type Row = seq<real>

  datatype Format = Floats | QInt8 | QUint8

  datatype Mode = Sum | Mean | WeightedSum | WeightedMean | Concatenate

  datatype Sparse = Fixed(hotness: nat) | Csr(offsets: seq<int>)

  function MetaCount(format: Format): nat {
    match format
    case Floats => 0
    case QInt8 => 1
    case QUint8 => 2
  }

  predicate RowOk(format: Format, width: nat, row: Row) {
    |row| == width + MetaCount(format)
  }

  /** Value `e` of a raw row. */
  function Value(format: Format, width: nat, row: Row, e: nat): real
    requires RowOk(format, width, row) && e < width
  {
    match format
    case Floats => row[e]
    case QInt8 => row[e] * row[width]
    case QUint8 => row[e] * row[width] + row[width + 1]
  }

  function Decode(format: Format, width: nat, row: Row): Row
    requires RowOk(format, width, row)
  {
    seq(width, e requires 0 <= e < width => Value(format, width, row, e))
  }

  predicate Weighted(mode: Mode) {
    mode == WeightedSum || mode == WeightedMean
  }

  predicate Averages(mode: Mode) {
    mode == Mean || mode == WeightedMean
  }

  /** The gathered rows and the weights of a lookup. */
  datatype Batch = Batch(format: Format, width: nat, rows: seq<Row>, mode: Mode, weights: seq<real>)

  predicate BatchOk(b: Batch) {
    && (forall k :: 0 <= k < |b.rows| ==> RowOk(b.format, b.width, b.rows[k]))
    && (Weighted(b.mode) ==> |b.weights| == |b.rows|)
  }

  // ---------------------------------------------------------------------------------------------
  // What pooling means.

  function Weight(b: Batch, k: nat): real
    requires BatchOk(b) && k < |b.rows|
  {
    if Weighted(b.mode) then b.weights[k] else 1.0
  }

  /** The weighted sum of value `e` over the keys `lo..hi`. */
  function Total(b: Batch, e: nat, lo: nat, hi: nat): real
    requires BatchOk(b) && e < b.width && lo <= hi <= |b.rows|
    decreases hi
  {
    if hi == lo then 0.0
    else Total(b, e, lo, hi - 1) + Weight(b, hi - 1) * Value(b.format, b.width, b.rows[hi - 1], e)
  }

  function WeightTotal(b: Batch, lo: nat, hi: nat): real
    requires BatchOk(b) && lo <= hi <= |b.rows|
    decreases hi
  {
    if hi == lo then 0.0 else WeightTotal(b, lo, hi - 1) + Weight(b, hi - 1)
  }

  /** Value `e` of the pooled row of the keys `lo..hi`: zero for an empty bag, and zero if the weights to divide by sum
      to zero. */
  function Pooled(b: Batch, e: nat, lo: int, hi: int): real
    requires BatchOk(b) && e < b.width && (lo < hi ==> 0 <= lo && hi <= |b.rows|)
  {
    if hi <= lo then 0.0
    else if b.mode == Mean then Total(b, e, lo, hi) / (hi - lo) as real
    else if b.mode != WeightedMean then Total(b, e, lo, hi)
    else if WeightTotal(b, lo, hi) == 0.0 then 0.0
    else Total(b, e, lo, hi) / WeightTotal(b, lo, hi)
  }

  function PooledRow(b: Batch, lo: int, hi: int): Row
    requires BatchOk(b) && (lo < hi ==> 0 <= lo && hi <= |b.rows|)
  {
    seq(b.width, e requires 0 <= e < b.width => Pooled(b, e, lo, hi))
  }

  /** Without weights the weight total is the number of keys, so both means divide by the weight total. */
  lemma {:induction false} UnweightedTotal(b: Batch, lo: nat, hi: nat)
    requires BatchOk(b) && lo <= hi <= |b.rows| && !Weighted(b.mode)
    ensures WeightTotal(b, lo, hi) == (hi - lo) as real
    decreases hi
  {
    if lo < hi {
      UnweightedTotal(b, lo, hi - 1);
    }
  }

  // ---------------------------------------------------------------------------------------------
  // The bags.

  function BagStart(s: Sparse, bag: nat): int
    requires s.Csr? ==> bag < |s.offsets|
  {
    match s
    case Fixed(h) => bag * h
    case Csr(offsets) => offsets[bag]
  }

  function BagEnd(s: Sparse, bag: nat): int
    requires s.Csr? ==> bag + 1 < |s.offsets|
  {
    match s
    case Fixed(h) => bag * h + h
    case Csr(offsets) => offsets[bag + 1]
  }

  /** The bags are within the gathered rows. */
  ghost predicate BagsOk(s: Sparse, numBags: nat, numKeys: nat) {
    match s
    case Fixed(h) => numBags * h <= numKeys
    case Csr(offsets) =>
      numBags < |offsets| &&
      forall b :: 0 <= b < numBags ==> (offsets[b] < offsets[b + 1] ==> 0 <= offsets[b] && offsets[b + 1] <= numKeys)
  }

  lemma BagInside(s: Sparse, numBags: nat, numKeys: nat, bag: nat)
    requires BagsOk(s, numBags, numKeys) && bag < numBags
    ensures BagStart(s, bag) < BagEnd(s, bag) ==> 0 <= BagStart(s, bag) && BagEnd(s, bag) <= numKeys
  {
    if s.Fixed? {
      assert (bag + 1) * s.hotness <= numBags * s.hotness;
      assert (bag + 1) * s.hotness == bag * s.hotness + s.hotness;
    }
  }

  // ---------------------------------------------------------------------------------------------
  // The kernels.

  /** One bag: rows are accumulated key by key, element by element, and scaled by the inverse denominator. */
  method PoolBag(b: Batch, lo: int, hi: int) returns (out: Row)
    requires BatchOk(b) && (lo < hi ==> 0 <= lo && hi <= |b.rows|)
    ensures out == PooledRow(b, lo, hi)
  {
    if hi - lo <= 0 {
      out := seq(b.width, _ => 0.0);
      return;
    }
    var acc, weightSum := Accumulate(b, lo, hi);
    var inv := 1.0;
    if Averages(b.mode) {
      var denom := if Weighted(b.mode) then weightSum else (hi - lo) as real;
      inv := if denom != 0.0 then 1.0 / denom else 0.0;
    }
    out := seq(b.width, e requires 0 <= e < |acc| => acc[e] * inv);
    forall e | 0 <= e < b.width
      ensures out[e] == Pooled(b, e, lo, hi)
    {
      Scaled(b, e, lo, hi, inv);
    }
  }

  method Accumulate(b: Batch, lo: nat, hi: nat) returns (sums: seq<real>, weightSum: real)
    requires BatchOk(b) && lo <= hi <= |b.rows|
    ensures |sums| == b.width && weightSum == WeightTotal(b, lo, hi)
    ensures forall e :: 0 <= e < b.width ==> sums[e] == Total(b, e, lo, hi)
  {
    var acc := new real[b.width](_ => 0.0);
    weightSum := 0.0;
    for k := lo to hi
      invariant weightSum == WeightTotal(b, lo, k)
      invariant forall e :: 0 <= e < b.width ==> acc[e] == Total(b, e, lo, k)
    {
      var w := if Weighted(b.mode) then b.weights[k] else 1.0;
      weightSum := weightSum + w;
      AddRow(b, k, w, acc);
    }
    sums := acc[..];
  }

  /** Multiplying by the inverse of the denominator is dividing by it. */
  lemma Scaled(b: Batch, e: nat, lo: nat, hi: nat, inv: real)
    requires BatchOk(b) && e < b.width && lo < hi <= |b.rows|
    requires var denom := if Weighted(b.mode) then WeightTotal(b, lo, hi) else (hi - lo) as real;
             inv == if !Averages(b.mode) then 1.0 else if denom != 0.0 then 1.0 / denom else 0.0
    ensures Total(b, e, lo, hi) * inv == Pooled(b, e, lo, hi)
  {
    var total := Total(b, e, lo, hi);
    Scale(total, (hi - lo) as real);
    Scale(total, WeightTotal(b, lo, hi));
  }

  lemma Scale(a: real, d: real)
    ensures d != 0.0 ==> a * (1.0 / d) == a / d
  {
  }

  method AddRow(b: Batch, k: nat, w: real, acc: array<real>)
    requires BatchOk(b) && k < |b.rows| && acc.Length == b.width && w == Weight(b, k)
    modifies acc
    ensures forall e :: 0 <= e < b.width ==> acc[e] == old(acc[e]) + w * Value(b.format, b.width, b.rows[k], e)
  {
    for e := 0 to b.width
      invariant forall i :: 0 <= i < e ==> acc[i] == old(acc[i]) + w * Value(b.format, b.width, b.rows[k], i)
      invariant forall i :: e <= i < b.width ==> acc[i] == old(acc[i])
    {
      var v := Value(b.format, b.width, b.rows[k], e);
      if Weighted(b.mode) {
        v := v * w;
      }
      acc[e] := acc[e] + v;
    }
  }

  ghost function BagRow(b: Batch, s: Sparse, numBags: nat, bag: nat): Row
    requires BatchOk(b) && BagsOk(s, numBags, |b.rows|) && bag < numBags
  {
    BagInside(s, numBags, |b.rows|, bag);
    PooledRow(b, BagStart(s, bag), BagEnd(s, bag))
  }

  ghost function BagRows(b: Batch, s: Sparse, numBags: nat): (r: seq<Row>)
    requires BatchOk(b) && BagsOk(s, numBags, |b.rows|)
    ensures |r| == numBags
  {
    seq(numBags, bag requires 0 <= bag < numBags => BagRow(b, s, numBags, bag))
  }

  method PoolOne(b: Batch, s: Sparse, ghost numBags: nat, bag: nat) returns (row: Row)
    requires BatchOk(b) && BagsOk(s, numBags, |b.rows|) && bag < numBags
    ensures row == BagRows(b, s, numBags)[bag]
  {
    BagInside(s, numBags, |b.rows|, bag);
    row := PoolBag(b, BagStart(s, bag), BagEnd(s, bag));
  }

  /** One pooling task: the bags `first..last`, in place. */
  method PoolTask(b: Batch, s: Sparse, ghost numBags: nat, first: nat, last: nat, out: array<Row>)
    requires BatchOk(b) && BagsOk(s, numBags, |b.rows|) && first <= last <= numBags <= out.Length
    modifies out
    ensures forall bag :: 0 <= bag < out.Length ==>
              out[bag] == if first <= bag < last then BagRows(b, s, numBags)[bag] else old(out[bag])
  {
    ghost var want := BagRows(b, s, numBags);
    for bag := first to last
      invariant forall i :: 0 <= i < out.Length ==> out[i] == if first <= i < bag then want[i] else old(out[i])
    {
      var row := PoolOne(b, s, numBags, bag);
      out[bag] := row;
    }
  }

  /** A bag of one key with weight one is the decoded row, in every mode: concatenation is pooling with hotness one. */
  lemma SingleKeyBag(b: Batch, k: nat)
    requires BatchOk(b) && k < |b.rows| && Weight(b, k) == 1.0
    ensures PooledRow(b, k, k + 1) == Decode(b.format, b.width, b.rows[k])
  {
    forall e | 0 <= e < b.width
      ensures Pooled(b, e, k, k + 1) == Value(b.format, b.width, b.rows[k], e)
    {
      assert Total(b, e, k, k) == 0.0 && WeightTotal(b, k, k) == 0.0;
      assert Total(b, e, k, k + 1) == Value(b.format, b.width, b.rows[k], e);
    }
  }
}
