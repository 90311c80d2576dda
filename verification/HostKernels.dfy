/** The loops behind the stages of the host lookup. Each is the sequence of steps that one range of its stage takes in
    the interleavings of module ParallelFor; and both kinds of table gather the rows that module HostLookup starts
    from. */
module HostKernels {

  import Arith
  import opened Pooling
  import opened HostLookup
  import BM = BitMask
  import PF = ParallelFor
  import LG = LinearGather
  import FP = FindPlan
  import Find = ParallelFind

  // ---------------------------------------------------------------------------------------------
  // One range on its own.

  /** The rest of range `t`, step by step. */
  ghost function Alone(b: PF.Job, s: PF.State, t: nat): (r: PF.State)
    requires PF.JobOk(b) && |s.out| == |b.before| && t < |s.pcs|
    ensures |r.out| == |s.out| && |r.pcs| == |s.pcs| && !PF.Enabled(b, r, t)
    decreases if s.pcs[t] < b.per then b.per - s.pcs[t] else 0
  {
    if PF.Enabled(b, s, t) then Alone(b, PF.Step(b, s, t), t) else s
  }

  predicate InRange(b: PF.Job, t: nat, from: nat, i: nat) {
    PF.Item(b, t, from) <= i < PF.Item(b, t, b.per) && i < b.n
  }

  /** The active items of range `t` from its `from`th on have their results in `now`, the others are as in `was`. */
  ghost predicate RangeDone(b: PF.Job, t: nat, from: nat, was: seq<Row>, now: seq<Row>) {
    && PF.JobOk(b) && |now| == |was| == |b.before|
    && forall i :: 0 <= i < |now| ==> now[i] == if InRange(b, t, from, i) && b.active[i] then b.want[i] else was[i]
  }

  /** A loop over a range does what the steps of the range do. */
  lemma {:induction false} RangeIsSteps(b: PF.Job, s: PF.State, t: nat, now: seq<Row>)
    requires t < |s.pcs| && s.pcs[t] <= b.per && RangeDone(b, t, s.pcs[t], s.out, now)
    ensures Alone(b, s, t).out == now
    decreases b.per - s.pcs[t]
  {
    if PF.Enabled(b, s, t) {
      var s', i := PF.Step(b, s, t), PF.Item(b, t, s.pcs[t]);
      assert InRange(b, t, s.pcs[t], i) by { assert PF.Item(b, t, s.pcs[t]) < PF.Item(b, t, b.per); }
      assert RangeDone(b, t, s'.pcs[t], s'.out, now);
      RangeIsSteps(b, s', t, now);
    } else {
      assert forall i :: 0 <= i < |now| ==> !InRange(b, t, s.pcs[t], i);
      assert now == s.out;
    }
  }

  // ---------------------------------------------------------------------------------------------
  // The loops.

  /** The first item of range `t` and the one after its last. */
  function First(per: nat, t: nat): nat {
    t * per
  }

  function Last(n: nat, per: nat, t: nat): nat {
    if First(per, t) + per < n then First(per, t) + per else n
  }

  lemma RangeIs(b: PF.Job, t: nat, i: nat)
    requires First(b.per, t) <= b.n
    ensures First(b.per, t) <= Last(b.n, b.per, t) <= b.n
    ensures InRange(b, t, 0, i) <==> First(b.per, t) <= i < Last(b.n, b.per, t)
  {
  }

  lemma RangeDoneFrom(b: PF.Job, t: nat, was: seq<Row>, now: seq<Row>)
    requires PF.JobOk(b) && |now| == |was| == |b.before| && First(b.per, t) <= b.n
    requires forall i :: 0 <= i < |now| ==>
               now[i] == if First(b.per, t) <= i < Last(b.n, b.per, t) && b.active[i] then b.want[i] else was[i]
    ensures RangeDone(b, t, 0, was, now)
  {
    forall i | 0 <= i < |now|
      ensures now[i] == if InRange(b, t, 0, i) && b.active[i] then b.want[i] else was[i]
    {
      RangeIs(b, t, i);
    }
  }

  /** As many ranges as it takes. */
  predicate IsCut(b: PF.Job) {
    b.per >= 1 && b.tasks == Arith.CeilDiv(b.n, b.per)
  }

  lemma RangeStarts(b: PF.Job, t: nat)
    requires IsCut(b) && t < b.tasks
    ensures First(b.per, t) <= b.n
  {
    Arith.DivBound(b.n + b.per - 1, b.per);
    Arith.MulMono(t + 1, b.tasks, b.per);
    assert (t + 1) * b.per == t * b.per + b.per;
  }

  ghost predicate IsFill(q: Query, b: PF.Job) {
    && PF.JobOk(b) && IsCut(b) && b.n == |q.keys| && q.dflt.Some?
    && forall k :: 0 <= k < b.n ==> b.active[k] == !Hit(q, k) && b.want[k] == q.dflt.value
  }

  lemma FillJobIs(q: Query, gathered: seq<Row>)
    requires q.dflt.Some? && |gathered| == |q.keys|
    ensures IsFill(q, FillJob(q, gathered))
  {
    PF.CutCovers(|q.keys|, q.workers);
  }

  ghost predicate IsOutput(q: Query, rows: seq<Row>, b: PF.Job) {
    && PF.JobOk(b) && IsCut(b) && OutputOk(q, rows) && b.n == OutputCount(q)
    && forall i :: 0 <= i < b.n ==> b.active[i] && b.want[i] == OutputRow(q, rows, i)
  }

  lemma PoolJobIs(q: Query, rows: seq<Row>, before: seq<Row>)
    requires OutputOk(q, rows) && |before| == OutputCount(q)
    ensures IsOutput(q, rows, PoolJob(q, rows, before))
  {
    PF.CutCovers(OutputCount(q), q.workers);
  }

  /** Default fill: the keys of the range whose bit is clear get the default row. */
  method FillRange(q: Query, ghost b: PF.Job, t: nat, per: nat, out: array<Row>)
    requires IsFill(q, b) && out.Length == |b.before| && per == b.per && t < b.tasks
    modifies out
    ensures RangeDone(b, t, 0, old(out[..]), out[..])
  {
    RangeStarts(b, t);
    RangeIs(b, t, 0);
    var first, last := First(per, t), Last(|q.keys|, per, t);
    for k := first to last
      invariant forall i :: 0 <= i < out.Length ==>
        out[i] == if first <= i < k && b.active[i] then b.want[i] else old(out[i])
    {
      if !Hit(q, k) {
        out[k] := q.dflt.value;
      }
    }
    RangeDoneFrom(b, t, old(out[..]), out[..]);
  }

  /** Pooling: the bags of the range. */
  method PoolRange(q: Query, rows: seq<Row>, ghost b: PF.Job, t: nat, per: nat, out: array<Row>)
    requires IsOutput(q, rows, b) && PlanOf(q).Reduce? && out.Length == |b.before| && per == b.per && t < b.tasks
    modifies out
    ensures RangeDone(b, t, 0, old(out[..]), out[..])
  {
    RangeStarts(b, t);
    RangeIs(b, t, 0);
    var s, n := PlanOf(q).sparse, PlanOf(q).numBags;
    var batch := BatchOf(q, q.params.value, rows);
    var first, last := First(per, t), Last(n, per, t);
    PoolTask(batch, s, n, first, last, out);
    forall i | first <= i < last
      ensures BagRows(batch, s, n)[i] == b.want[i]
    {
      assert b.want[i] == OutputRow(q, rows, i);
    }
    RangeDoneFrom(b, t, old(out[..]), out[..]);
  }

  /** Concatenation with conversion: one output row per key. */
  method ConvertRange(q: Query, rows: seq<Row>, ghost b: PF.Job, t: nat, per: nat, out: array<Row>)
    requires IsOutput(q, rows, b) && PlanOf(q) == Convert && out.Length == |b.before| && per == b.per && t < b.tasks
    modifies out
    ensures RangeDone(b, t, 0, old(out[..]), out[..])
  {
    RangeStarts(b, t);
    RangeIs(b, t, 0);
    var first, last := First(per, t), Last(|q.keys|, per, t);
    for r := first to last
      invariant forall i :: 0 <= i < out.Length ==> out[i] == if first <= i < r then b.want[i] else old(out[i])
    {
      var row := ConvertRow(FormatOf(q.dtype), q.width, rows[r]);
      assert b.want[r] == OutputRow(q, rows, r);
      out[r] := row;
    }
    RangeDoneFrom(b, t, old(out[..]), out[..]);
  }

  method ConvertRow(format: Format, width: nat, row: Row) returns (out: Row)
    requires RowOk(format, width, row)
    ensures out == Decode(format, width, row)
  {
    out := [];
    for e := 0 to width
      invariant |out| == e && forall i :: 0 <= i < e ==> out[i] == Value(format, width, row, i)
    {
      out := out + [Value(format, width, row, e)];
    }
  }

  // ---------------------------------------------------------------------------------------------
  // The gather stage.

  /** The query's table is the linear table. */
  ghost predicate IsLinear(q: Query, table: seq<Row>) {
    && (forall i :: 0 <= i < |q.keys| ==> 0 <= q.keys[i] < |table|)
    && (forall k :: k in q.table <==> 0 <= k < |table|) && (forall k :: k in q.table ==> q.table[k] == table[k])
  }

  /** Gathering from a linear table with a cleared mask leaves the rows that the lookup starts from. */
  lemma LinearGathered(q: Query, table: seq<Row>, mask: seq<nat>, scratch: seq<Row>, threads: nat,
                       ss: seq<PF.State>, es: seq<nat>)
    requires IsLinear(q, table) && |scratch| == |q.keys| <= 64 * |mask| && threads >= 1
    requires forall w :: 0 <= w < |mask| ==> mask[w] == 0
    requires PF.IsRun(LG.GatherJob(q.keys, table, mask, scratch, threads), ss, es)
    requires PF.AllDone(LG.GatherJob(q.keys, table, mask, scratch, threads), ss[|es|])
    ensures ss[|es|].out == Gathered(q, scratch)
  {
    forall i | 0 <= i < |q.keys|
      ensures |ss[|es|].out| == |scratch| && ss[|es|].out[i] == Gathered(q, scratch)[i]
    {
      LG.GatherIsExact(q.keys, table, mask, scratch, threads, ss, es, i);
      BM.BitZero(i % 64);
    }
    LG.GatherLength(q.keys, table, mask, scratch, threads, ss, es);
  }

  /** The query's table is what the partitions hold. */
  ghost predicate IsPartitioned(q: Query, l: FP.Lookup) {
    && FP.LookupOk(l) && l.keys == q.keys
    && forall i :: 0 <= i < |q.keys| ==> HoldsSame(q, l, q.keys[i])
  }

  ghost predicate HoldsSame(q: Query, l: FP.Lookup, k: int) {
    && l.partOf(k) < |l.tables| && (k in q.table <==> k in l.tables[l.partOf(k)])
    && (k in q.table ==> q.table[k] == l.tables[l.partOf(k)][k])
  }

  ghost predicate RowAndBit(q: Query, l: FP.Lookup, s: Find.State, i: nat, w: nat, j: nat) {
    && |l.values| == |q.keys| && i < |q.keys| && w < |s.mask| && w < |s.values| && j < |s.values[w]|
    && s.values[w][j] == Gathered(q, l.values)[i] && (j in s.mask[w] <==> Hit(q, i))
  }

  /** Row `i` of the lookup of a partitioned table with a cleared mask is the one that the lookup starts from, and its
      bit says whether the key is resident. */
  lemma PartitionedGathered(q: Query, l: FP.Lookup, ss: seq<Find.State>, es: seq<Find.Event>, i: nat)
    requires IsPartitioned(q, l) && i < |q.keys| && !l.copying.NoValues?
    requires forall w :: 0 <= w < |l.mask| ==> l.mask[w] == {}
    requires Find.IsRun(FP.MakeProblem(l), ss, es) && Find.AllDone(ss[|es|])
    ensures RowAndBit(q, l, ss[|es|], i, i / l.width, i % l.width)
  {
    FP.LookupIsCorrect(l, ss, es, i);
    Arith.DivBound(i, l.width);
    AnswerRow(q, l, ss[|es|], i, i / l.width, i % l.width);
  }

  lemma AnswerRow(q: Query, l: FP.Lookup, s: Find.State, i: nat, w: nat, j: nat)
    requires IsPartitioned(q, l) && i < |q.keys| && !l.copying.NoValues?
    requires forall v :: 0 <= v < |l.mask| ==> l.mask[v] == {}
    requires FP.Answer(l, s, i, w, j)
    ensures RowAndBit(q, l, s, i, w, j)
  {
    assert HoldsSame(q, l, q.keys[i]);
  }
}
