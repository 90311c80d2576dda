/** The staged loops of the host lookup: the items `0..n` are cut into consecutive ranges of `per` items, one task per
    range, and every task writes its own items of an output buffer one by one, skipping those that are not active. The
    tasks run in any interleaving on any number of workers. */
module ParallelFor {

  import Arith

  type Row = seq<real>

  /** `want[i]` is what the loop body computes for item `i`. */
  datatype Job = Job(n: nat, per: nat, tasks: nat, active: seq<bool>, want: seq<Row>, before: seq<Row>)

  predicate JobOk(b: Job) {
    && |b.active| == |b.want| == b.n <= |b.before| && b.n <= b.tasks * b.per
  }

  /** `pcs[t]` counts the items that task `t` has gone through. */
  datatype State = State(out: seq<Row>, pcs: seq<nat>)

  function Item(b: Job, t: nat, j: nat): nat {
    t * b.per + j
  }

  predicate Enabled(b: Job, s: State, t: nat) {
    t < |s.pcs| && s.pcs[t] < b.per && Item(b, t, s.pcs[t]) < b.n
  }

  function Step(b: Job, s: State, t: nat): State
    requires JobOk(b) && |s.out| == |b.before| && Enabled(b, s, t)
  {
    var i := Item(b, t, s.pcs[t]);
    State(if b.active[i] then s.out[i := b.want[i]] else s.out, s.pcs[t := s.pcs[t] + 1])
  }

  ghost predicate Initial(b: Job, s: State) {
    s.out == b.before && |s.pcs| == b.tasks && forall t :: 0 <= t < |s.pcs| ==> s.pcs[t] == 0
  }

  /** A step is defined on buffers of the right length; that a run has no others is `RunInv`. */
  ghost predicate IsStep(b: Job, s: State, t: nat, s': State)
    requires JobOk(b)
  {
    |s.out| == |b.before| ==> Enabled(b, s, t) && s' == Step(b, s, t)
  }

  ghost predicate IsRun(b: Job, ss: seq<State>, es: seq<nat>) {
    && JobOk(b) && |ss| == |es| + 1 && Initial(b, ss[0])
    && forall i :: 0 <= i < |es| ==> IsStep(b, ss[i], es[i], ss[i + 1])
  }

  ghost predicate AllDone(b: Job, s: State) {
    forall t :: 0 <= t < |s.pcs| ==> !Enabled(b, s, t)
  }

  /** Item `i` is the `j`th of range `t`. */
  predicate Owns(b: Job, t: nat, j: nat, i: nat) {
    j < b.per && i == Item(b, t, j)
  }

  lemma OwnerUnique(b: Job, t: nat, j: nat, i: nat)
    requires Owns(b, t, j, i)
    ensures i / b.per == t && i % b.per == j
  {
    Arith.ModUnique(i, b.per, t, j);
  }

  lemma OwnerExists(b: Job, i: nat)
    requires i < b.n <= b.tasks * b.per
    ensures b.per >= 1 && 0 <= i / b.per < b.tasks && Owns(b, i / b.per, i % b.per, i)
  {
    assert b.per >= 1 by { assert b.per == 0 ==> b.tasks * b.per == 0; }
    Arith.DivBound(i, b.per);
    var t := i / b.per;
    if t >= b.tasks {
      Arith.MulMono(b.tasks, t, b.per);
    }
  }

  /** Its task has gone through item `i`. */
  ghost predicate Visited(b: Job, s: State, i: nat) {
    exists t: nat, j: nat :: Owns(b, t, j, i) && t < |s.pcs| && j < s.pcs[t]
  }

  ghost predicate ItemOk(b: Job, s: State, i: nat)
    requires i < |s.out| == |b.before| && JobOk(b)
  {
    s.out[i] == if i < b.n && b.active[i] && Visited(b, s, i) then b.want[i] else b.before[i]
  }

  ghost predicate Inv(b: Job, s: State) {
    && JobOk(b) && |s.out| == |b.before| && |s.pcs| == b.tasks
    && (forall t :: 0 <= t < |s.pcs| ==> s.pcs[t] <= b.per)
    && forall i :: 0 <= i < |s.out| ==> ItemOk(b, s, i)
  }

  /** A step visits its own item and no other. */
  lemma StepVisits(b: Job, s: State, t: nat, i: nat)
    requires Inv(b, s) && Enabled(b, s, t)
    ensures Visited(b, Step(b, s, t), i) <==> Visited(b, s, i) || i == Item(b, t, s.pcs[t])
  {
    var s', j := Step(b, s, t), s.pcs[t];
    if Visited(b, s, i) {
      var t': nat, j': nat :| Owns(b, t', j', i) && t' < |s.pcs| && j' < s.pcs[t'];
      assert j' < s'.pcs[t'];
    }
    if i == Item(b, t, j) {
      assert Owns(b, t, j, i) && j < s'.pcs[t];
    }
    if Visited(b, s', i) {
      var t': nat, j': nat :| Owns(b, t', j', i) && t' < |s'.pcs| && j' < s'.pcs[t'];
      assert j' < s.pcs[t'] || (t' == t && j' == j);
    }
  }

  lemma StepInv(b: Job, s: State, t: nat)
    requires Inv(b, s) && Enabled(b, s, t)
    ensures Inv(b, Step(b, s, t))
  {
    var s' := Step(b, s, t);
    forall i | 0 <= i < |s'.out|
      ensures ItemOk(b, s', i)
    {
      assert ItemOk(b, s, i);
      StepVisits(b, s, t, i);
    }
  }

  lemma {:induction false} RunInv(b: Job, ss: seq<State>, es: seq<nat>, n: nat)
    requires IsRun(b, ss, es) && n <= |es|
    ensures Inv(b, ss[n])
  {
    if n > 0 {
      RunInv(b, ss, es, n - 1);
      assert IsStep(b, ss[n - 1], es[n - 1], ss[n]);
      StepInv(b, ss[n - 1], es[n - 1]);
    }
  }

  /** The buffer once every task has ended, by item. */
  function Written(b: Job, i: nat): Row
    requires JobOk(b) && i < |b.before|
  {
    if i < b.n && b.active[i] then b.want[i] else b.before[i]
  }

  /** Whatever the interleaving, every active item holds what the loop body computes for it and nothing else is
      touched. */
  lemma ParallelIsSequential(b: Job, ss: seq<State>, es: seq<nat>)
    requires IsRun(b, ss, es) && AllDone(b, ss[|es|])
    ensures |ss[|es|].out| == |b.before|
    ensures forall i :: 0 <= i < |b.before| ==> ss[|es|].out[i] == Written(b, i)
  {
    var s := ss[|es|];
    RunInv(b, ss, es, |es|);
    forall i | 0 <= i < |b.before|
      ensures s.out[i] == Written(b, i)
    {
      assert ItemOk(b, s, i);
      if i < b.n {
        DoneVisits(b, s, i);
      }
    }
  }

  lemma DoneVisits(b: Job, s: State, i: nat)
    requires Inv(b, s) && AllDone(b, s) && i < b.n
    ensures Visited(b, s, i)
  {
    OwnerExists(b, i);
    var t, j := i / b.per, i % b.per;
    assert !Enabled(b, s, t);
    assert s.pcs[t] <= j ==> Item(b, t, s.pcs[t]) <= i;
  }

  // ---------------------------------------------------------------------------------------------
  // The two ways of cutting.

  lemma CeilDivCovers(n: nat, d: nat)
    requires d >= 1
    ensures n <= Arith.CeilDiv(n, d) * d
  {
    Arith.CeilDivOk(n, d, Arith.CeilDiv(n, d));
  }

  /** Pooling, concatenation and default fill: at least one item per task, and as many tasks as it takes. The default
      fill divides by the number of workers as it is; a pool has at least one worker, for which the first line changes
      nothing. */
  function ItemsPerTask(n: nat, workers: int): nat {
    var w := if workers < 1 then 1 else workers;
    Arith.DivBound(n + w - 1, w);
    if Arith.CeilDiv(n, w) < 1 then 1 else Arith.CeilDiv(n, w)
  }

  lemma CutCovers(n: nat, workers: int)
    ensures ItemsPerTask(n, workers) >= 1
    ensures n <= Arith.CeilDiv(n, ItemsPerTask(n, workers)) * ItemsPerTask(n, workers)
  {
    CeilDivCovers(n, ItemsPerTask(n, workers));
  }

  /** A task holds the fewest items with which the workers get one task each at most: with one item less the tasks
      would be more than the workers. */
  lemma CutIsEven(n: nat, workers: int)
    ensures var w := if workers < 1 then 1 else workers;
            var per := ItemsPerTask(n, workers);
            n <= w * per && Arith.CeilDiv(n, per) <= w && (per > 1 ==> w * (per - 1) < n)
  {
    var w := if workers < 1 then 1 else workers;
    var per := ItemsPerTask(n, workers);
    CeilDivCovers(n, w);
    Arith.MulMono(Arith.CeilDiv(n, w), per, w);
    if per > 1 {
      Arith.CeilDivOk(n, w, per - 1);
    }
    Arith.CeilDivOk(n, per, w);
  }

  /** Gathering: one task per thread, with ranges that start at a mask word. */
  function KeysPerThread(n: nat, threads: nat): nat
    requires threads >= 1
  {
    Arith.DivBound(n + threads - 1, threads);
    Arith.DivBound(Arith.CeilDiv(n, threads) + 63, 64);
    Arith.CeilDiv(Arith.CeilDiv(n, threads), 64) * 64
  }

  lemma GatherCovers(n: nat, threads: nat)
    requires threads >= 1
    ensures n <= threads * KeysPerThread(n, threads)
  {
    CeilDivCovers(n, threads);
    Arith.DivBound(n + threads - 1, threads);
    CeilDivCovers(Arith.CeilDiv(n, threads), 64);
    Arith.MulMono(Arith.CeilDiv(n, threads), KeysPerThread(n, threads), threads);
  }

  /** A gather range is the even share of a thread, rounded up to whole mask words. */
  lemma GatherIsEven(n: nat, threads: nat)
    requires threads >= 1
    ensures var per := KeysPerThread(n, threads);
            per % 64 == 0 && (per > 0 ==> threads * (per - 64) < n)
  {
    var share, per := Arith.CeilDiv(n, threads), KeysPerThread(n, threads);
    Arith.DivBound(n + threads - 1, threads);
    if per > 0 {
      assert per - 64 < share by { Arith.CeilDivOk(share, 64, per / 64 - 1); }
      Arith.CeilDivOk(n, threads, per - 64);
    }
  }

  /** A gather task looks up the bit of key `i` of its range relative to the mask word its range starts with; because
      the ranges start at a mask word, that is the bit of the key itself. */
  lemma GatherReadsOwnBit(n: nat, threads: nat, t: nat, i: nat)
    requires threads >= 1
    ensures var base := t * KeysPerThread(n, threads);
            base / 64 + i / 64 == (base + i) / 64 && i % 64 == (base + i) % 64
  {
    var words := Arith.CeilDiv(Arith.CeilDiv(n, threads), 64);
    var base := t * KeysPerThread(n, threads);
    assert base == t * words * 64;
  }
}
