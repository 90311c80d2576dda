/** The statistical insert heuristic: per table, a state machine over the hit rates that decides when to insert. Rates
    are real numbers; the random draw of a call is an input. */
module InsertHeuristic {

  import Arith

  datatype Phase = Start | Insert | Steady | Unstable

  /** `numKeys` is zero if the batch size is not known. */
  datatype Config = Config(numKeys: nat, window: nat, needed: nat, maxUnsteady: nat)

  predicate ConfigOk(c: Config) {
    c.window > 1 && c.needed > 0 && c.maxUnsteady > 0
  }

  /** The k factor of a table and its probability of staying in the steady state. */
  datatype Limits = Limits(k: real, chebyshev: real)

  datatype Table = Table(phase: Phase, rates: seq<real>, mean: real, variance: real, collected: nat, inserted: nat,
                         unsteady: nat)

  function Fresh(c: Config): Table {
    Table(Start, seq(c.window, _ => 0.0), 0.0, 0.0, 0, 0, 0)
  }

  // ---------------------------------------------------------------------------------------------
  // Window statistics.

  function Sum(xs: seq<real>): real {
    if xs == [] then 0.0 else Sum(xs[..|xs| - 1]) + xs[|xs| - 1]
  }

  function SumSquares(xs: seq<real>, mean: real): real {
    if xs == [] then 0.0
    else SumSquares(xs[..|xs| - 1], mean) + (xs[|xs| - 1] - mean) * (xs[|xs| - 1] - mean)
  }

  /** The sample variance, or that of a binomial distribution if the batch size is known. */
  function Variance(c: Config, rates: seq<real>, mean: real): real
    requires ConfigOk(c)
  {
    if c.numKeys == 0 then SumSquares(rates, mean) / (c.window - 1) as real
    else mean * (1.0 - mean) / c.numKeys as real
  }

  function Slide(c: Config, t: Table, rate: real): Table
    requires ConfigOk(c) && |t.rates| == c.window
  {
    var rates := t.rates[1..] + [rate];
    var mean := t.mean + (rate - t.rates[0]) / c.window as real;
    t.(rates := rates, mean := mean, variance := Variance(c, rates, mean))
  }

  /** The distance from the mean is at least `k` standard deviations. The root of a negative variance compares false. */
  predicate Outlier(l: Limits, t: Table, rate: real) {
    t.variance >= 0.0 && (rate - t.mean) * (rate - t.mean) >= l.k * l.k * t.variance
  }

  // ---------------------------------------------------------------------------------------------
  // The state machine.

  function Next(c: Config, l: Limits, t: Table, rate: real, draw: real): (Table, bool)
    requires ConfigOk(c) && |t.rates| == c.window
  {
    match t.phase
    case Start =>
      var t1 := Slide(c, t, rate).(collected := t.collected + 1);
      (if t1.collected == c.window then t1.(phase := Insert) else t1, false)
    case Insert =>
      var t1 := t.(inserted := t.inserted + 1);
      (if t1.inserted % c.needed == 0 then t1.(phase := Unstable) else t1, true)
    case Steady =>
      if Outlier(l, t, rate) then
        (if t.unsteady + 1 == c.maxUnsteady then t.(phase := Insert, unsteady := 0) else t.(unsteady := t.unsteady + 1),
         false)
      else (Slide(c, t, rate).(unsteady := 0), false)
    case Unstable =>
      var restart := Outlier(l, t, rate) && draw > l.chebyshev;
      var t1 := Slide(c, t, rate);
      (if restart then t1.(phase := Start, collected := 1) else t1.(phase := Steady), false)
  }

  ghost predicate MeanOk(c: Config, t: Table) {
    |t.rates| == c.window && t.mean * c.window as real == Sum(t.rates)
  }

  predicate CountsOk(c: Config, t: Table) {
    && ConfigOk(c) && t.unsteady < c.maxUnsteady && (t.phase != Steady ==> t.unsteady == 0)
    && (t.phase == Start ==> t.collected < c.window)
    && (t.phase != Insert ==> t.inserted % c.needed == 0)
  }

  ghost predicate Inv(c: Config, t: Table) {
    ConfigOk(c) && MeanOk(c, t) && CountsOk(c, t)
  }

  lemma {:induction false} SumZero(n: nat)
    ensures Sum(seq(n, _ => 0.0)) == 0.0
  {
    if n > 0 {
      SumZero(n - 1);
      assert seq(n, _ => 0.0)[..n - 1] == seq(n - 1, _ => 0.0);
    }
  }

  lemma {:induction false} SumTail(xs: seq<real>)
    requires xs != []
    ensures Sum(xs[1..]) == Sum(xs) - xs[0]
  {
    var n := |xs| - 1;
    if n > 0 {
      SumTail(xs[..n]);
      assert xs[1..][..n - 1] == xs[..n][1..];
    } else {
      assert xs[1..] == [];
      assert xs[..0] == [];
    }
  }

  /** The tracked mean follows the window. */
  lemma SlideMean(c: Config, t: Table, rate: real)
    requires ConfigOk(c) && MeanOk(c, t)
    ensures MeanOk(c, Slide(c, t, rate))
  {
    var rates, w := t.rates[1..] + [rate], c.window as real;
    SumTail(t.rates);
    assert rates[..|rates| - 1] == t.rates[1..];
    assert (t.mean + (rate - t.rates[0]) / w) * w == t.mean * w + (rate - t.rates[0]);
  }

  lemma FreshInv(c: Config)
    requires ConfigOk(c)
    ensures Inv(c, Fresh(c))
  {
    SumZero(c.window);
  }

  predicate SameStats(t: Table, t': Table) {
    t.rates == t'.rates && t.mean == t'.mean
  }

  /** A step either slides the window or leaves it. */
  lemma StepSlides(c: Config, l: Limits, t: Table, rate: real, draw: real)
    requires ConfigOk(c) && |t.rates| == c.window
    ensures SameStats(Next(c, l, t, rate, draw).0, Slide(c, t, rate)) || SameStats(Next(c, l, t, rate, draw).0, t)
  {
  }

  lemma StepMean(c: Config, l: Limits, t: Table, rate: real, draw: real)
    requires ConfigOk(c) && MeanOk(c, t)
    ensures MeanOk(c, Next(c, l, t, rate, draw).0)
  {
    var t1, t' := Slide(c, t, rate), Next(c, l, t, rate, draw).0;
    StepSlides(c, l, t, rate, draw);
    SlideMean(c, t, rate);
    SameMean(c, t, t1, t');
  }

  lemma SameMean(c: Config, t: Table, t1: Table, t': Table)
    requires MeanOk(c, t) && MeanOk(c, t1) && (SameStats(t', t1) || SameStats(t', t))
    ensures MeanOk(c, t')
  {
  }

  lemma StepCounts(c: Config, l: Limits, t: Table, rate: real, draw: real)
    requires CountsOk(c, t) && |t.rates| == c.window
    ensures CountsOk(c, Next(c, l, t, rate, draw).0)
  {
  }

  lemma StepInv(c: Config, l: Limits, t: Table, rate: real, draw: real)
    requires Inv(c, t)
    ensures Inv(c, Next(c, l, t, rate, draw).0)
  {
    StepMean(c, l, t, rate, draw);
    StepCounts(c, l, t, rate, draw);
  }

  // ---------------------------------------------------------------------------------------------
  // Runs of one table.

  datatype Input = Input(rate: real, draw: real)

  ghost predicate IsRun(c: Config, l: Limits, ts: seq<Table>, ins: seq<Input>, outs: seq<bool>) {
    && ConfigOk(c) && |ts| == |ins| + 1 && |outs| == |ins| && ts[0] == Fresh(c)
    && forall i :: 0 <= i < |ins| ==> IsStep(c, l, ts[i], ins[i], outs[i], ts[i + 1])
  }

  /** A step is defined on windows of the right length; that a run has no others is `RunInv`. */
  ghost predicate IsStep(c: Config, l: Limits, t: Table, input: Input, out: bool, t': Table)
    requires ConfigOk(c)
  {
    |t.rates| == c.window ==> (t', out) == Next(c, l, t, input.rate, input.draw)
  }

  /** How often `b` is repeated at the end of a list of answers. */
  function Trail(outs: seq<bool>, b: bool): nat {
    if outs == [] || outs[|outs| - 1] != b then 0 else 1 + Trail(outs[..|outs| - 1], b)
  }

  lemma TrailPush(outs: seq<bool>, out: bool, b: bool)
    ensures Trail(outs + [out], b) == if out == b then 1 + Trail(outs, b) else 0
  {
    assert (outs + [out])[..|outs|] == outs;
  }

  /** The fewest refusals between two runs of inserts. */
  function MinGap(c: Config): nat
    requires ConfigOk(c)
  {
    1 + if c.window - 1 <= c.maxUnsteady then c.window - 1 else c.maxUnsteady
  }

  /** What the answers so far look like in each phase. */
  ghost predicate TrailOk(c: Config, t: Table, outs: seq<bool>)
    requires ConfigOk(c)
  {
    match t.phase
    case Start => Trail(outs, true) == 0 && Trail(outs, false) == t.collected
    case Steady => Trail(outs, true) == 0 && Trail(outs, false) >= 1 + t.unsteady
    case Unstable => Trail(outs, true) == c.needed
    case Insert =>
      Trail(outs, true) == t.inserted % c.needed && (Trail(outs, true) == 0 ==> Trail(outs, false) >= MinGap(c))
  }

  lemma NextCount(n: nat, m: nat)
    requires m >= 1
    ensures (n + 1) % m == if n % m + 1 == m then 0 else n % m + 1
  {
    var q, r := n / m, n % m;
    assert n == q * m + r;
    if r + 1 == m {
      assert n + 1 == (q + 1) * m;
      Arith.ModUnique(n + 1, m, q + 1, 0);
    } else {
      Arith.ModUnique(n + 1, m, q, r + 1);
    }
  }

  lemma StepTrail(c: Config, l: Limits, t: Table, rate: real, draw: real, outs: seq<bool>)
    requires Inv(c, t) && TrailOk(c, t, outs)
    ensures TrailOk(c, Next(c, l, t, rate, draw).0, outs + [Next(c, l, t, rate, draw).1])
  {
    var out := Next(c, l, t, rate, draw).1;
    TrailPush(outs, out, true);
    TrailPush(outs, out, false);
    if t.phase == Insert {
      NextCount(t.inserted, c.needed);
    }
  }

  lemma {:induction false} RunInv(c: Config, l: Limits, ts: seq<Table>, ins: seq<Input>, outs: seq<bool>, n: nat)
    requires IsRun(c, l, ts, ins, outs) && n <= |ins|
    ensures Inv(c, ts[n]) && TrailOk(c, ts[n], outs[..n])
  {
    if n == 0 {
      FreshInv(c);
    } else {
      RunInv(c, l, ts, ins, outs, n - 1);
      assert IsStep(c, l, ts[n - 1], ins[n - 1], outs[n - 1], ts[n]);
      StepInv(c, l, ts[n - 1], ins[n - 1].rate, ins[n - 1].draw);
      StepTrail(c, l, ts[n - 1], ins[n - 1].rate, ins[n - 1].draw, outs[..n - 1]);
      assert outs[..n] == outs[..n - 1] + [outs[n - 1]];
    }
  }

  /** In every reachable state the tracked mean is the average of the window. */
  lemma MeanIsAverage(c: Config, l: Limits, ts: seq<Table>, ins: seq<Input>, outs: seq<bool>, n: nat)
    requires IsRun(c, l, ts, ins, outs) && n <= |ins|
    ensures |ts[n].rates| == c.window && ts[n].mean == Sum(ts[n].rates) / c.window as real
  {
    RunInv(c, l, ts, ins, outs, n);
    DividedBy(ts[n].mean, c.window as real, Sum(ts[n].rates));
  }

  lemma DividedBy(x: real, w: real, y: real)
    requires w > 0.0 && x * w == y
    ensures x == y / w
  {
  }

  lemma {:induction false} TrailIs(outs: seq<bool>, i: nat, b: bool)
    requires i <= |outs| && (forall k :: i <= k < |outs| ==> outs[k] == b) && (i > 0 ==> outs[i - 1] != b)
    ensures Trail(outs, b) == |outs| - i
  {
    if i < |outs| {
      TrailIs(outs[..|outs| - 1], i, b);
    }
  }

  /** A run of inserts that has ended is exactly `needed` long. */
  lemma InsertRunLength(c: Config, l: Limits, ts: seq<Table>, ins: seq<Input>, outs: seq<bool>, i: nat, j: nat)
    requires IsRun(c, l, ts, ins, outs) && i < j < |outs|
    requires (forall k :: i <= k < j ==> outs[k]) && (i > 0 ==> !outs[i - 1]) && !outs[j]
    ensures j - i == c.needed
  {
    RunInv(c, l, ts, ins, outs, j);
    TrailIs(outs[..j], i, true);
    assert IsStep(c, l, ts[j], ins[j], outs[j], ts[j + 1]);
  }

  /** A run of inserts is never longer than that. */
  lemma InsertRunBound(c: Config, l: Limits, ts: seq<Table>, ins: seq<Input>, outs: seq<bool>, i: nat, j: nat)
    requires IsRun(c, l, ts, ins, outs) && i < j <= |outs| && (forall k :: i <= k < j ==> outs[k]) &&
             (i > 0 ==> !outs[i - 1])
    ensures j - i <= c.needed
  {
    RunInv(c, l, ts, ins, outs, j);
    TrailIs(outs[..j], i, true);
  }

  /** Between two runs of inserts there are at least `MinGap` refusals. */
  lemma GapLength(c: Config, l: Limits, ts: seq<Table>, ins: seq<Input>, outs: seq<bool>, i: nat, j: nat)
    requires IsRun(c, l, ts, ins, outs) && 0 < i < j < |outs|
    requires outs[i - 1] && (forall k :: i <= k < j ==> !outs[k]) && outs[j]
    ensures j - i >= MinGap(c)
  {
    RunInv(c, l, ts, ins, outs, j);
    TrailIs(outs[..j], i, false);
    TrailIs(outs[..j], j, true);
    assert IsStep(c, l, ts[j], ins[j], outs[j], ts[j + 1]);
  }

  /** The first insert comes after exactly a window of samples. */
  lemma {:induction false} FirstInsert(c: Config, l: Limits, ts: seq<Table>, ins: seq<Input>, outs: seq<bool>, n: nat)
    requires IsRun(c, l, ts, ins, outs) && n <= |outs| && n <= c.window
    ensures (forall k :: 0 <= k < n ==> !outs[k]) && ts[n].collected == n
    ensures ts[n].phase == (if n < c.window then Start else Insert)
  {
    if n > 0 {
      FirstInsert(c, l, ts, ins, outs, n - 1);
      RunInv(c, l, ts, ins, outs, n - 1);
      assert IsStep(c, l, ts[n - 1], ins[n - 1], outs[n - 1], ts[n]);
    }
  }

  /** Comparing squares is comparing distances with `k` standard deviations. */
  lemma OutlierIs(l: Limits, t: Table, rate: real, deviation: real)
    requires l.k > 0.0 && deviation >= 0.0 && deviation * deviation == t.variance
    ensures Outlier(l, t, rate) <==> rate - t.mean >= l.k * deviation || t.mean - rate >= l.k * deviation
  {
    var d := if rate >= t.mean then rate - t.mean else t.mean - rate;
    var b := l.k * deviation;
    assert (rate - t.mean) * (rate - t.mean) == d * d;
    assert l.k * l.k * t.variance == b * b;
    Squares(d, b);
  }

  lemma SquareMono(a: real, b: real)
    requires 0.0 <= a < b
    ensures a * a < b * b
  {
    var d := b - a;
    assert b * b == a * a + 2.0 * (a * d) + d * d;
  }

  lemma Squares(a: real, b: real)
    requires a >= 0.0 && b >= 0.0
    ensures a * a >= b * b <==> a >= b
  {
    if a < b {
      SquareMono(a, b);
    } else if b < a {
      SquareMono(b, a);
    }
  }

  /** Only an outlier in the steady phase raises the unsteady count, and it leaves the statistics alone. */
  lemma UnsteadyStep(c: Config, l: Limits, t: Table, rate: real, draw: real)
    requires CountsOk(c, t) && |t.rates| == c.window
    ensures var t' := Next(c, l, t, rate, draw).0;
            t'.phase == Steady && t'.unsteady > 0 ==>
              t.phase == Steady && t' == t.(unsteady := t.unsteady + 1) && Outlier(l, t, rate)
  {
  }

  ghost predicate OutlierAt(l: Limits, ts: seq<Table>, ins: seq<Input>, i: int, t: Table) {
    0 <= i < |ts| && i < |ins| && ts[i].phase == Steady && Outlier(l, t, ins[i].rate)
  }

  /** Sample `i` came in the steady phase and was an outlier of the statistics at that time. */
  ghost predicate UnsteadyAt(l: Limits, ts: seq<Table>, ins: seq<Input>, i: int) {
    0 <= i < |ts| && OutlierAt(l, ts, ins, i, ts[i])
  }

  /** In the steady phase the last `unsteady` samples were outliers, of the statistics then and of those there are
      now. */
  lemma {:induction false} UnsteadyAreOutliers(c: Config, l: Limits, ts: seq<Table>, ins: seq<Input>, outs: seq<bool>,
                                               n: nat)
    requires IsRun(c, l, ts, ins, outs) && n <= |ins| && ts[n].phase == Steady
    ensures forall i :: n - ts[n].unsteady <= i < n ==> OutlierAt(l, ts, ins, i, ts[n]) && UnsteadyAt(l, ts, ins, i)
  {
    if ts[n].unsteady > 0 {
      assert n > 0;
      RunInv(c, l, ts, ins, outs, n - 1);
      var t := ts[n - 1];
      assert IsStep(c, l, t, ins[n - 1], outs[n - 1], ts[n]);
      UnsteadyStep(c, l, t, ins[n - 1].rate, ins[n - 1].draw);
      UnsteadyAreOutliers(c, l, ts, ins, outs, n - 1);
      forall i | n - ts[n].unsteady <= i < n
        ensures OutlierAt(l, ts, ins, i, ts[n]) && UnsteadyAt(l, ts, ins, i)
      {
        assert OutlierAt(l, ts, ins, i, t);
      }
    }
  }

  /** Outliers in a row add up. */
  lemma {:induction false} OutliersCount(c: Config, l: Limits, ts: seq<Table>, ins: seq<Input>, outs: seq<bool>, n: nat,
                                         m: nat)
    requires IsRun(c, l, ts, ins, outs) && n <= |ins| && ts[n].phase == Steady
    requires forall i :: n - m <= i < n ==> UnsteadyAt(l, ts, ins, i)
    ensures ts[n].unsteady >= m
  {
    if m > 0 {
      assert UnsteadyAt(l, ts, ins, n - 1);
      OutliersCount(c, l, ts, ins, outs, n - 1, m - 1);
      RunInv(c, l, ts, ins, outs, n - 1);
      assert IsStep(c, l, ts[n - 1], ins[n - 1], outs[n - 1], ts[n]);
    }
  }

  /** The steady phase ends exactly after that many outliers in a row, and then with inserts. */
  lemma SteadyEnds(c: Config, l: Limits, ts: seq<Table>, ins: seq<Input>, outs: seq<bool>, n: nat)
    requires IsRun(c, l, ts, ins, outs) && n < |ins| && ts[n].phase == Steady
    ensures ts[n + 1].phase != Steady <==> forall i :: n + 1 - c.maxUnsteady <= i <= n ==> UnsteadyAt(l, ts, ins, i)
    ensures ts[n + 1].phase != Steady ==> ts[n + 1].phase == Insert
  {
    RunInv(c, l, ts, ins, outs, n);
    assert IsStep(c, l, ts[n], ins[n], outs[n], ts[n + 1]);
    if ts[n + 1].phase != Steady {
      UnsteadyAreOutliers(c, l, ts, ins, outs, n);
      forall i | n + 1 - c.maxUnsteady <= i <= n
        ensures UnsteadyAt(l, ts, ins, i)
      {
        assert i < n ==> n - ts[n].unsteady <= i;
      }
    } else if forall i :: n + 1 - c.maxUnsteady <= i <= n ==> UnsteadyAt(l, ts, ins, i) {
      assert UnsteadyAt(l, ts, ins, n);
      OutliersCount(c, l, ts, ins, outs, n, c.maxUnsteady - 1);
    }
  }

  // ---------------------------------------------------------------------------------------------
  // The shortest gap is reached: while all rates are zero, so is the variance, and every sample is an outlier.

  function Flat(c: Config, phase: Phase, collected: nat, inserted: nat, unsteady: nat): Table {
    Table(phase, seq(c.window, _ => 0.0), 0.0, 0.0, collected, inserted, unsteady)
  }

  lemma {:induction false} SumSquaresZero(n: nat)
    ensures SumSquares(seq(n, _ => 0.0), 0.0) == 0.0
  {
    if n > 0 {
      SumSquaresZero(n - 1);
      assert seq(n, _ => 0.0)[..n - 1] == seq(n - 1, _ => 0.0);
    }
  }

  lemma FlatSlides(c: Config, t: Table)
    requires ConfigOk(c) && t == Flat(c, t.phase, t.collected, t.inserted, t.unsteady)
    ensures Slide(c, t, 0.0) == t
  {
    SumSquaresZero(c.window);
    assert t.rates[1..] + [0.0] == t.rates;
  }

  /** The `j`th state after the last insert: in the steady phase, or after a restart if `restart`. */
  function AfterInserts(c: Config, restart: bool, j: nat): Table
    requires ConfigOk(c)
  {
    if j == 0 then Flat(c, Unstable, c.window, c.needed, 0)
    else if restart then Flat(c, if j < c.window then Start else Insert, j, c.needed, 0)
    else if j <= c.maxUnsteady then Flat(c, Steady, c.window, c.needed, j - 1)
    else Flat(c, Insert, c.window, c.needed, 0)
  }

  function FlatAt(c: Config, restart: bool, i: nat): Table
    requires ConfigOk(c)
  {
    if i < c.window then Flat(c, Start, i, 0, 0)
    else if i < c.window + c.needed then Flat(c, Insert, c.window, i - c.window, 0)
    else AfterInserts(c, restart, i - c.window - c.needed)
  }

  /** The number of refusals after a run of inserts. */
  function Gap(c: Config, restart: bool): nat {
    if restart then c.window else 1 + c.maxUnsteady
  }

  function FlatDraw(l: Limits, restart: bool): real {
    if restart then l.chebyshev + 1.0 else l.chebyshev
  }

  lemma CountNotDone(n: nat, m: nat)
    requires 0 < n < m
    ensures n % m == n
  {
    Arith.ModUnique(n, m, 0, n);
  }

  lemma FlatStep(c: Config, l: Limits, restart: bool, i: nat)
    requires ConfigOk(c) && i < c.window + c.needed + Gap(c, restart)
    ensures Next(c, l, FlatAt(c, restart, i), 0.0, FlatDraw(l, restart)) ==
            (FlatAt(c, restart, i + 1), c.window <= i < c.window + c.needed)
  {
    FlatSlides(c, FlatAt(c, restart, i));
    if c.window <= i < c.window + c.needed {
      var n := i - c.window + 1;
      if n < c.needed {
        CountNotDone(n, c.needed);
      } else {
        Arith.ModUnique(n, c.needed, 1, 0);
      }
    }
  }

  /** Runs with two runs of inserts that are `1 + maxUnsteady` or, after a restart, a window apart; so `MinGap` is
      reached whatever the limits. */
  lemma GapReached(c: Config, l: Limits, restart: bool)
    returns (ts: seq<Table>, ins: seq<Input>, outs: seq<bool>, i: nat, j: nat)
    requires ConfigOk(c)
    ensures IsRun(c, l, ts, ins, outs) && 0 < i < j < |outs|
    ensures outs[i - 1] && (forall k :: i <= k < j ==> !outs[k]) && outs[j]
    ensures j - i == Gap(c, restart)
    ensures MinGap(c) == if Gap(c, true) <= Gap(c, false) then Gap(c, true) else Gap(c, false)
  {
    i := c.window + c.needed;
    j := i + Gap(c, restart);
    var n, draw := j, FlatDraw(l, restart);
    ts := seq(n + 1, k requires 0 <= k <= n => FlatAt(c, restart, k));
    outs := seq(n, k => c.window <= k < c.window + c.needed);
    ins := seq(n, _ => Input(0.0, draw));
    forall k | 0 <= k < n
      ensures IsStep(c, l, ts[k], ins[k], outs[k], ts[k + 1])
    {
      FlatStep(c, l, restart, k);
    }
    assert ts[n].phase == Insert;
    var last := Next(c, l, ts[n], 0.0, draw);
    ts, ins, outs := ts + [last.0], ins + [Input(0.0, draw)], outs + [last.1];
  }

  // ---------------------------------------------------------------------------------------------
  // The heuristic itself.

  class StatisticalInsertHeuristic {
    const c: Config
    const limits: seq<Limits>
    var tables: seq<Table>

    ghost predicate Valid()
      reads this
    {
      |tables| == |limits| && forall i :: 0 <= i < |tables| ==> Inv(c, tables[i])
    }

    constructor (c: Config, limits: seq<Limits>)
      requires ConfigOk(c)
      ensures Valid() && this.c == c && this.limits == limits
      ensures forall i :: 0 <= i < |limits| ==> tables[i] == Fresh(c)
    {
      this.c, this.limits := c, limits;
      tables := seq(|limits|, _ => Fresh(c));
      FreshInv(c);
    }

    /** Refuses an unknown table; otherwise moves that table, and no other. */
    method InsertNeeded(rate: real, id: int, draw: real) returns (ok: bool, insert: bool)
      requires Valid()
      modifies this
      ensures Valid() && ok == (0 <= id < |limits|)
      ensures !ok ==> tables == old(tables)
      ensures ok ==> (tables[id], insert) == Next(c, limits[id], old(tables)[id], rate, draw)
      ensures ok ==> tables == old(tables)[id := tables[id]]
    {
      ok, insert := 0 <= id < |tables|, false;
      if !ok {
        return;
      }
      var t, l := tables[id], limits[id];
      StepInv(c, l, t, rate, draw);
      match t.phase {
        case Start =>
          t := UpdateDistribution(t, rate);
          t := t.(collected := t.collected + 1);
          if t.collected == c.window {
            t := t.(phase := Insert);
          }
        case Insert =>
          t := t.(inserted := t.inserted + 1);
          if t.inserted % c.needed == 0 {
            t := t.(phase := Unstable);
          }
          insert := true;
        case Steady =>
          if Outlier(l, t, rate) {
            t := t.(unsteady := t.unsteady + 1);
            if t.unsteady == c.maxUnsteady {
              t := t.(phase := Insert, unsteady := 0);
            }
          } else {
            t := t.(unsteady := 0);
            t := UpdateDistribution(t, rate);
          }
        case Unstable =>
          var restart := Outlier(l, t, rate) && draw > l.chebyshev;
          t := t.(phase := Steady);
          if restart {
            t := t.(phase := Start, collected := 1);
          }
          t := UpdateDistribution(t, rate);
      }
      tables := tables[id := t];
    }

    /** Slides the window and recomputes the mean and the variance. */
    method UpdateDistribution(t: Table, rate: real) returns (r: Table)
      requires ConfigOk(c) && |t.rates| == c.window
      ensures r == Slide(c, t, rate)
    {
      var rates := t.rates[1..] + [rate];
      var mean := t.mean + (rate - t.rates[0]) / c.window as real;
      var variance := 0.0;
      if c.numKeys == 0 {
        for i := 0 to c.window
          invariant variance == SumSquares(rates[..i], mean)
        {
          variance := variance + (rates[i] - mean) * (rates[i] - mean);
          assert rates[..i + 1][..i] == rates[..i];
        }
        assert rates[..c.window] == rates;
        variance := variance / (c.window - 1) as real;
      } else {
        variance := mean * (1.0 - mean) / c.numKeys as real;
      }
      r := t.(rates := rates, mean := mean, variance := variance);
    }
  }
}
