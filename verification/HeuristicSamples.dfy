/** What the statistical insert heuristic decides, in terms of the hit rates it was given: which of them are in the
    window, what the statistics of the window are, and when the phases change. */
module HeuristicSamples {

  import opened InsertHeuristic

  // ---------------------------------------------------------------------------------------------
  // The window.

  /** Sample `i` is recorded: while the window fills, right after inserts, and in the steady phase unless it is an
      outlier. */
  ghost predicate IsRecorded(l: Limits, ts: seq<Table>, ins: seq<Input>, i: nat)
    requires i < |ins| && i < |ts|
  {
    match ts[i].phase
    case Start => true
    case Unstable => true
    case Steady => !Outlier(l, ts[i], ins[i].rate)
    case Insert => false
  }

  /** The recorded ones among the first `n` samples. */
  ghost function Recorded(l: Limits, ts: seq<Table>, ins: seq<Input>, n: nat): seq<real>
    requires n <= |ins| && n <= |ts|
  {
    if n == 0 then []
    else Recorded(l, ts, ins, n - 1) + if IsRecorded(l, ts, ins, n - 1) then [ins[n - 1].rate] else []
  }

  /** The last `window` of these, after as many zeros. */
  ghost function LastRates(c: Config, recorded: seq<real>): (r: seq<real>)
    ensures |r| == c.window
  {
    var all := seq(c.window, _ => 0.0) + recorded;
    all[|all| - c.window..]
  }

  lemma LastPush(c: Config, recorded: seq<real>, rate: real)
    requires c.window > 0
    ensures LastRates(c, recorded + [rate]) == LastRates(c, recorded)[1..] + [rate]
  {
    var all := seq(c.window, _ => 0.0) + recorded;
    assert seq(c.window, _ => 0.0) + (recorded + [rate]) == all + [rate];
  }

  lemma StepWindow(c: Config, l: Limits, t: Table, input: Input, recorded: seq<real>, kept: bool)
    requires ConfigOk(c) && |t.rates| == c.window && t.rates == LastRates(c, recorded)
    requires kept <==> t.phase == Start || t.phase == Unstable || (t.phase == Steady && !Outlier(l, t, input.rate))
    ensures Next(c, l, t, input.rate, input.draw).0.rates ==
            LastRates(c, recorded + if kept then [input.rate] else [])
  {
    LastPush(c, recorded, input.rate);
    assert recorded + [] == recorded;
  }

  /** In every reachable state the window holds the last recorded samples. */
  lemma {:induction false} WindowIs(c: Config, l: Limits, ts: seq<Table>, ins: seq<Input>, outs: seq<bool>, n: nat)
    requires IsRun(c, l, ts, ins, outs) && n <= |ins|
    ensures ts[n].rates == LastRates(c, Recorded(l, ts, ins, n))
  {
    if n == 0 {
      assert seq(c.window, _ => 0.0) + [] == seq(c.window, _ => 0.0);
    } else {
      WindowIs(c, l, ts, ins, outs, n - 1);
      RunInv(c, l, ts, ins, outs, n - 1);
      assert IsStep(c, l, ts[n - 1], ins[n - 1], outs[n - 1], ts[n]);
      StepWindow(c, l, ts[n - 1], ins[n - 1], Recorded(l, ts, ins, n - 1), IsRecorded(l, ts, ins, n - 1));
    }
  }

  // ---------------------------------------------------------------------------------------------
  // The statistics.

  function Mean(rates: seq<real>): real
    requires rates != []
  {
    Sum(rates) / |rates| as real
  }

  /** The sum of the squared distances from the mean. */
  function Spread(rates: seq<real>, mean: real): real {
    if rates == [] then 0.0
    else Spread(rates[..|rates| - 1], mean) + (rates[|rates| - 1] - mean) * (rates[|rates| - 1] - mean)
  }

  lemma {:induction false} SpreadIs(rates: seq<real>, mean: real)
    ensures SumSquares(rates, mean) == Spread(rates, mean)
  {
    if rates != [] {
      SpreadIs(rates[..|rates| - 1], mean);
    }
  }

  /** The variance of a window: that of the sample, or if the batch size is known that of a share of so many keys. */
  function VarianceOf(c: Config, rates: seq<real>): real
    requires |rates| > 1
  {
    var mean := Mean(rates);
    if c.numKeys == 0 then Spread(rates, mean) / (|rates| - 1) as real else mean * (1.0 - mean) / c.numKeys as real
  }

  /** Once a sample has been recorded, mean and variance are those of the window; before, the variance is zero. */
  ghost predicate StatsOk(c: Config, t: Table, recorded: seq<real>) {
    && |t.rates| == c.window > 1 && t.mean == Mean(t.rates)
    && t.variance == if recorded == [] then 0.0 else VarianceOf(c, t.rates)
  }

  lemma VarianceSame(c: Config, rates: seq<real>, mean: real)
    requires ConfigOk(c) && |rates| == c.window && mean == Mean(rates)
    ensures Variance(c, rates, mean) == VarianceOf(c, rates)
  {
    SpreadIs(rates, mean);
  }

  lemma StepVariance(c: Config, l: Limits, t: Table, input: Input, kept: bool)
    requires ConfigOk(c) && |t.rates| == c.window
    requires kept <==> t.phase == Start || t.phase == Unstable || (t.phase == Steady && !Outlier(l, t, input.rate))
    ensures var t' := Next(c, l, t, input.rate, input.draw).0;
            if kept then t'.variance == Variance(c, t'.rates, t'.mean)
            else t'.variance == t.variance && t'.rates == t.rates && t'.mean == t.mean
  {
  }

  lemma {:induction false} StatsAre(c: Config, l: Limits, ts: seq<Table>, ins: seq<Input>, outs: seq<bool>, n: nat)
    requires IsRun(c, l, ts, ins, outs) && n <= |ins|
    ensures StatsOk(c, ts[n], Recorded(l, ts, ins, n))
  {
    MeanIsAverage(c, l, ts, ins, outs, n);
    if n > 0 {
      StatsAre(c, l, ts, ins, outs, n - 1);
      RunInv(c, l, ts, ins, outs, n - 1);
      assert IsStep(c, l, ts[n - 1], ins[n - 1], outs[n - 1], ts[n]);
      StepVariance(c, l, ts[n - 1], ins[n - 1], IsRecorded(l, ts, ins, n - 1));
      VarianceSame(c, ts[n].rates, ts[n].mean);
    }
  }

  /** A sample is an outlier of a window: its squared distance from the mean is at least the square of `k` standard
      deviations. */
  predicate OutlierOf(c: Config, l: Limits, rates: seq<real>, rate: real)
    requires |rates| > 1
  {
    Far(l.k, Mean(rates), VarianceOf(c, rates), rate)
  }

  predicate Far(k: real, mean: real, variance: real, rate: real) {
    variance >= 0.0 && (rate - mean) * (rate - mean) >= k * k * variance
  }

  lemma OutlierIsFar(l: Limits, t: Table, rate: real)
    ensures Outlier(l, t, rate) <==> Far(l.k, t.mean, t.variance, rate)
  {
  }

  /** Past the first phase, what counts as an outlier is decided by the last recorded samples. */
  lemma OutlierIff(c: Config, l: Limits, ts: seq<Table>, ins: seq<Input>, outs: seq<bool>, n: nat, rate: real)
    requires IsRun(c, l, ts, ins, outs) && n <= |ins| && Recorded(l, ts, ins, n) != []
    ensures |LastRates(c, Recorded(l, ts, ins, n))| > 1
    ensures Outlier(l, ts[n], rate) <==> OutlierOf(c, l, LastRates(c, Recorded(l, ts, ins, n)), rate)
  {
    WindowIs(c, l, ts, ins, outs, n);
    StatsAre(c, l, ts, ins, outs, n);
    OutlierIsFar(l, ts[n], rate);
  }

  /** All samples of the first phase are recorded, so there is one from the first call on. */
  lemma {:induction false} SomeRecorded(c: Config, l: Limits, ts: seq<Table>, ins: seq<Input>, outs: seq<bool>, n: nat)
    requires IsRun(c, l, ts, ins, outs) && 0 < n <= |ins|
    ensures Recorded(l, ts, ins, n) != []
  {
    if n > 1 {
      SomeRecorded(c, l, ts, ins, outs, n - 1);
    } else {
      assert IsRecorded(l, ts, ins, 0);
    }
  }

  // ---------------------------------------------------------------------------------------------
  // The phases.

  /** After a run of inserts the next sample decides: an outlier whose draw is above the Chebyshev bound starts the
      collection anew, anything else leads to the steady phase. */
  lemma UnstableDecides(c: Config, l: Limits, ts: seq<Table>, ins: seq<Input>, outs: seq<bool>, n: nat)
    requires IsRun(c, l, ts, ins, outs) && 0 < n < |ins| && ts[n].phase == Unstable
    ensures |LastRates(c, Recorded(l, ts, ins, n))| > 1 && !outs[n]
    ensures ts[n + 1].phase ==
            if OutlierOf(c, l, LastRates(c, Recorded(l, ts, ins, n)), ins[n].rate) && ins[n].draw > l.chebyshev
            then Start else Steady
    ensures ts[n + 1].phase == Start ==> ts[n + 1].collected == 1
  {
    SomeRecorded(c, l, ts, ins, outs, n);
    OutlierIff(c, l, ts, ins, outs, n, ins[n].rate);
    RunInv(c, l, ts, ins, outs, n);
    assert IsStep(c, l, ts[n], ins[n], outs[n], ts[n + 1]);
  }

  /** A collection ends, with inserts, as soon as it has a window of samples. */
  lemma {:induction false} StartEnds(c: Config, l: Limits, ts: seq<Table>, ins: seq<Input>, outs: seq<bool>, n: nat,
                                     m: nat)
    requires IsRun(c, l, ts, ins, outs) && n + m <= |ins| && ts[n].phase == Start && m <= c.window - ts[n].collected
    ensures ts[n + m].collected == ts[n].collected + m
    ensures ts[n + m].phase == if m < c.window - ts[n].collected then Start else Insert
    ensures forall k :: n <= k < n + m ==> !outs[k]
  {
    RunInv(c, l, ts, ins, outs, n);
    if m > 0 {
      StartEnds(c, l, ts, ins, outs, n, m - 1);
      RunInv(c, l, ts, ins, outs, n + m - 1);
      assert IsStep(c, l, ts[n + m - 1], ins[n + m - 1], outs[n + m - 1], ts[n + m]);
    }
  }

  /** The heuristic answers yes exactly in the insert phase. */
  lemma AnswersInserts(c: Config, l: Limits, ts: seq<Table>, ins: seq<Input>, outs: seq<bool>, n: nat)
    requires IsRun(c, l, ts, ins, outs) && n < |ins|
    ensures outs[n] <==> ts[n].phase == Insert
  {
    RunInv(c, l, ts, ins, outs, n);
    assert IsStep(c, l, ts[n], ins[n], outs[n], ts[n + 1]);
  }
}
