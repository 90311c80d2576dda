/** The lookup of the host embedding layer: gather a raw row per key, fill in the default row for the keys that missed,
    and reduce or convert the rows into the output. */
module HostLookup {

  import Arith
  import opened Common
  import PF = ParallelFor
  import opened Pooling

  datatype DType = Float32 | Float16 | QInt8Row | QUint8Row | Unknown

  datatype SparseKind = FixedKind | CsrKind | OtherKind

  datatype Params = Params(mode: Mode, kind: SparseKind, indices: seq<int>, weights: seq<real>, output: DType)

  /** `table` holds the resident rows and `dflt` the default row if there is one. */
  datatype Query = Query(keys: seq<int>, table: map<int, Row>, dtype: DType, width: nat, dflt: Option<Row>,
                         params: Option<Params>, workers: int)

  predicate IsFloat(d: DType) {
    d == Float32 || d == Float16
  }

  function FormatOf(d: DType): Format {
    if d == QInt8Row then QInt8 else if d == QUint8Row then QUint8 else Floats
  }

  predicate RawOk(q: Query, row: Row) {
    RowOk(FormatOf(q.dtype), q.width, row)
  }

  ghost predicate QueryOk(q: Query) {
    && (forall k :: k in q.table ==> RawOk(q, q.table[k]))
    && (q.dflt.Some? ==> RawOk(q, q.dflt.value))
  }

  // ---------------------------------------------------------------------------------------------
  // What is to be done.

  /** `Raw`: one unmodified row per key. `Convert`: one decoded row per key. `Reduce`: one pooled row per bag. */
  datatype Plan = Refused | Raw | Convert | Reduce(sparse: Sparse, numBags: nat)

  function OutType(q: Query, p: Params): DType {
    if p.output != Unknown then p.output else if IsFloat(q.dtype) then q.dtype else Float32
  }

  function PlanOf(q: Query): Plan {
    if q.keys == [] then Refused
    else if q.params == None then Raw
    else
      var p := q.params.value;
      var concat := p.mode == Concatenate;
      if q.dtype == Unknown then Refused
      else if !IsFloat(OutType(q, p)) && !(concat && OutType(q, p) == q.dtype) then Refused
      else if concat then if OutType(q, p) == q.dtype then Raw else Convert
      else if p.indices == [] || p.kind == OtherKind then Refused
      else if p.kind == CsrKind then Reduce(Csr(p.indices), |p.indices| - 1)
      else if p.indices[0] <= 0 || |q.keys| % p.indices[0] != 0 then Refused
      else Arith.DivBound(|q.keys|, p.indices[0]); Reduce(Fixed(p.indices[0]), |q.keys| / p.indices[0])
  }

  /** Fixed bags use up the keys exactly. */
  lemma FixedBags(q: Query)
    requires PlanOf(q).Reduce? && PlanOf(q).sparse.Fixed?
    ensures PlanOf(q).numBags * PlanOf(q).sparse.hotness == |q.keys| &&
            BagsOk(PlanOf(q).sparse, PlanOf(q).numBags, |q.keys|)
  {
    Arith.DivBound(|q.keys|, PlanOf(q).sparse.hotness);
  }

  // ---------------------------------------------------------------------------------------------
  // Gather and default fill.

  predicate Hit(q: Query, k: nat)
    requires k < |q.keys|
  {
    q.keys[k] in q.table
  }

  /** The rows that the reduction should see. A key that is neither resident nor given a default keeps whatever its
      place in the buffer held. */
  function Effective(q: Query, scratch: seq<Row>): (r: seq<Row>)
    requires |scratch| == |q.keys|
    ensures |r| == |q.keys|
  {
    seq(|q.keys|, k requires 0 <= k < |q.keys| =>
      if Hit(q, k) then q.table[q.keys[k]] else if q.dflt.Some? then q.dflt.value else scratch[k])
  }

  /** What the table's lookup leaves in the buffer. */
  function Gathered(q: Query, scratch: seq<Row>): (r: seq<Row>)
    requires |scratch| == |q.keys|
    ensures |r| == |q.keys|
  {
    seq(|q.keys|, k requires 0 <= k < |q.keys| => if Hit(q, k) then q.table[q.keys[k]] else scratch[k])
  }

  ghost predicate FillNeeded(q: Query) {
    q.dflt.Some? && exists k :: 0 <= k < |q.keys| && !Hit(q, k)
  }

  function CutJob(n: nat, workers: int, active: seq<bool>, want: seq<Row>, before: seq<Row>): PF.Job {
    PF.CutCovers(n, workers);
    var per := PF.ItemsPerTask(n, workers);
    Arith.DivBound(n + per - 1, per);
    PF.Job(n, per, Arith.CeilDiv(n, per), active, want, before)
  }

  function FillJob(q: Query, gathered: seq<Row>): PF.Job
    requires q.dflt.Some?
  {
    CutJob(|q.keys|, q.workers, seq(|q.keys|, k requires 0 <= k < |q.keys| => !Hit(q, k)),
           seq(|q.keys|, _ => q.dflt.value), gathered)
  }

  /** A stage turned `job.before` into `result`. */
  ghost predicate Stage(job: PF.Job, result: seq<Row>) {
    exists ss: seq<PF.State>, es: seq<nat> ::
      PF.IsRun(job, ss, es) && PF.AllDone(job, ss[|es|]) && ss[|es|].out == result
  }

  lemma StageResult(job: PF.Job, result: seq<Row>)
    requires PF.JobOk(job) && Stage(job, result)
    ensures |result| == |job.before| && forall i :: 0 <= i < |job.before| ==> result[i] == PF.Written(job, i)
  {
    var ss: seq<PF.State>, es: seq<nat> :|
      PF.IsRun(job, ss, es) && PF.AllDone(job, ss[|es|]) && ss[|es|].out == result;
    PF.ParallelIsSequential(job, ss, es);
  }

  ghost predicate FillStage(q: Query, scratch: seq<Row>, filled: seq<Row>)
    requires |scratch| == |q.keys|
  {
    if FillNeeded(q) then Stage(FillJob(q, Gathered(q, scratch)), filled) else filled == Gathered(q, scratch)
  }

  /** After the fill the buffer holds the rows that the reduction should see. */
  lemma FillIsEffective(q: Query, scratch: seq<Row>, filled: seq<Row>)
    requires |scratch| == |q.keys| && FillStage(q, scratch, filled)
    ensures filled == Effective(q, scratch)
  {
    if FillNeeded(q) {
      var job := FillJob(q, Gathered(q, scratch));
      PF.CutCovers(|q.keys|, q.workers);
      StageResult(job, filled);
      forall k | 0 <= k < |q.keys|
        ensures filled[k] == Effective(q, scratch)[k]
      {
        assert filled[k] == PF.Written(job, k);
      }
    } else {
      forall k | 0 <= k < |q.keys|
        ensures filled[k] == Effective(q, scratch)[k]
      {
        assert q.dflt.Some? ==> Hit(q, k);
      }
    }
  }

  // ---------------------------------------------------------------------------------------------
  // Reduction.

  function BatchOf(q: Query, p: Params, rows: seq<Row>): Batch {
    Batch(FormatOf(q.dtype), q.width, rows, p.mode, p.weights)
  }

  /** The output row `b` for the rows of the keys. */
  ghost function OutputRow(q: Query, rows: seq<Row>, b: nat): Row
    requires OutputOk(q, rows) && b < OutputCount(q)
  {
    match PlanOf(q)
    case Raw => rows[b]
    case Convert => Decode(FormatOf(q.dtype), q.width, rows[b])
    case Reduce(s, n) => BagRow(BatchOf(q, q.params.value, rows), s, n, b)
    case Refused => []
  }

  function OutputCount(q: Query): nat {
    match PlanOf(q)
    case Reduce(_, n) => n
    case Refused => 0
    case _ => |q.keys|
  }

  ghost predicate OutputOk(q: Query, rows: seq<Row>) {
    && |rows| == |q.keys| && (forall k :: 0 <= k < |rows| ==> RawOk(q, rows[k]))
    && (PlanOf(q).Reduce? ==>
          BatchOk(BatchOf(q, q.params.value, rows)) && BagsOk(PlanOf(q).sparse, PlanOf(q).numBags, |rows|))
  }

  ghost function OutputRows(q: Query, rows: seq<Row>): (r: seq<Row>)
    requires OutputOk(q, rows)
    ensures |r| == OutputCount(q)
  {
    seq(OutputCount(q), b requires 0 <= b < OutputCount(q) => OutputRow(q, rows, b))
  }

  ghost function PoolJob(q: Query, rows: seq<Row>, before: seq<Row>): PF.Job
    requires OutputOk(q, rows)
  {
    CutJob(OutputCount(q), q.workers, seq(OutputCount(q), _ => true), OutputRows(q, rows), before)
  }

  /** Raw rows are gathered straight into the output; otherwise the rows are reduced or converted into it. */
  ghost predicate OutputStage(q: Query, filled: seq<Row>, before: seq<Row>, out: seq<Row>) {
    match PlanOf(q)
    case Refused => out == before
    case Raw => out == filled
    case _ => OutputOk(q, filled) && |before| == OutputCount(q) && Stage(PoolJob(q, filled, before), out)
  }

  /** For every number of keys and workers, layout, mode and row format, and every interleaving within each stage,
      the output is the reduction of the effective rows, bag by bag. */
  lemma LookupIsSpec(q: Query, scratch: seq<Row>, filled: seq<Row>, before: seq<Row>, out: seq<Row>)
    requires PlanOf(q) != Refused && |scratch| == |q.keys| && OutputOk(q, Effective(q, scratch))
    requires FillStage(q, scratch, filled) && OutputStage(q, filled, before, out)
    ensures |out| == OutputCount(q)
    ensures forall b :: 0 <= b < |out| ==> out[b] == OutputRow(q, Effective(q, scratch), b)
  {
    FillIsEffective(q, scratch, filled);
    if PlanOf(q) != Raw {
      var job := PoolJob(q, filled, before);
      PF.CutCovers(OutputCount(q), q.workers);
      StageResult(job, out);
      forall b | 0 <= b < |out|
        ensures out[b] == OutputRow(q, filled, b)
      {
        assert out[b] == PF.Written(job, b) == OutputRows(q, filled)[b];
      }
    }
  }

  /** Rows of the right size, weights for every key where the mode needs them, and offsets within the keys. */
  ghost predicate Proper(q: Query) {
    && QueryOk(q)
    && (PlanOf(q).Reduce? && Weighted(q.params.value.mode) ==> |q.params.value.weights| == |q.keys|)
    && (PlanOf(q).Reduce? && PlanOf(q).sparse.Csr? ==> BagsOk(PlanOf(q).sparse, PlanOf(q).numBags, |q.keys|))
  }

  /** A buffer with a raw row of the right size per key. */
  ghost predicate ScratchOk(q: Query, scratch: seq<Row>) {
    |scratch| == |q.keys| && forall k :: 0 <= k < |scratch| ==> RawOk(q, scratch[k])
  }

  /** That is all there is to ask of a query. */
  lemma EffectiveOk(q: Query, scratch: seq<Row>)
    requires Proper(q) && ScratchOk(q, scratch)
    ensures OutputOk(q, Effective(q, scratch))
  {
    var rows := Effective(q, scratch);
    forall k | 0 <= k < |rows|
      ensures RawOk(q, rows[k])
    {
      assert RawOk(q, scratch[k]);
      var key := q.keys[k];
      if key in q.table {
        assert RawOk(q, q.table[key]);
      }
    }
    if PlanOf(q).Reduce? && PlanOf(q).sparse.Fixed? {
      FixedBags(q);
    }
  }
}
