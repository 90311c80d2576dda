/** One workgroup of a thread pool: a queue of tasks, its workers, and the shutdown that queues terminators. The items
    ever queued are kept in one list, of which the first `next` have been taken; an index into it names a task. */
module WorkerGroup {

  import Arith
  import opened Common

  datatype Item = Work | Stop

  datatype Worker = Idle | Busy(index: nat) | Exited

  /** `finished` lists what has run in the order in which it ended; `stopAt` is the number of items queued before the
      terminators. */
  datatype State = State(items: seq<Item>, next: nat, workers: seq<Worker>, finished: seq<nat>, stopAt: Option<nat>)

  datatype Event = Submit | Shutdown | Take(w: nat) | Finish(w: nat)

  predicate Enabled(s: State, e: Event) {
    match e
    case Submit => true
    case Shutdown => s.stopAt == None
    case Take(w) => w < |s.workers| && s.workers[w] == Idle && s.next < |s.items|
    case Finish(w) => w < |s.workers| && s.workers[w].Busy?
  }

  /** A worker that takes a terminator exits. */
  function Apply(s: State, e: Event, stops: nat): State
    requires Enabled(s, e)
  {
    match e
    case Submit => s.(items := s.items + [Work])
    case Shutdown => s.(items := s.items + seq(stops, _ => Stop), stopAt := Some(|s.items|))
    case Take(w) =>
      s.(next := s.next + 1, workers := s.workers[w := if s.items[s.next] == Stop then Exited else Busy(s.next)])
    case Finish(w) => s.(workers := s.workers[w := Idle], finished := s.finished + [s.workers[w].index])
  }

  ghost predicate Initial(s: State) {
    && s.items == [] && s.next == 0 && s.finished == [] && s.stopAt == None
    && forall w :: 0 <= w < |s.workers| ==> s.workers[w] == Idle
  }

  /** `ss` lists the states of a run of a group whose shutdown queues `stops` terminators. */
  ghost predicate IsRun(ss: seq<State>, es: seq<Event>, stops: nat) {
    && |ss| == |es| + 1
    && forall i :: 0 <= i < |es| ==> Enabled(ss[i], es[i]) && ss[i + 1] == Apply(ss[i], es[i], stops)
  }

  function ExitCount(workers: seq<Worker>): nat {
    if workers == [] then 0 else ExitCount(workers[..|workers| - 1]) + if workers[|workers| - 1] == Exited then 1 else 0
  }

  lemma {:induction false} ExitChange(workers: seq<Worker>, w: nat, k: Worker)
    requires w < |workers|
    ensures ExitCount(workers[w := k]) ==
            ExitCount(workers) - (if workers[w] == Exited then 1 else 0) + if k == Exited then 1 else 0
  {
    var n := |workers| - 1;
    if w == n {
      assert workers[w := k][..n] == workers[..n];
    } else {
      ExitChange(workers[..n], w, k);
      assert workers[w := k][..n] == workers[..n][w := k];
    }
  }

  lemma {:induction false} ExitBound(workers: seq<Worker>)
    ensures ExitCount(workers) <= |workers|
    ensures ExitCount(workers) == |workers| <==> forall w :: 0 <= w < |workers| ==> workers[w] == Exited
  {
    if workers != [] {
      var n := |workers| - 1;
      ExitBound(workers[..n]);
      assert forall w :: 0 <= w < n ==> workers[..n][w] == workers[w];
    }
  }

  lemma {:induction false} NoneExited(workers: seq<Worker>)
    requires forall w :: 0 <= w < |workers| ==> workers[w] != Exited
    ensures ExitCount(workers) == 0
  {
    if workers != [] {
      NoneExited(workers[..|workers| - 1]);
    }
  }

  // ---------------------------------------------------------------------------------------------
  // The invariant.

  /** Terminators are queued exactly by the shutdown, one after the other. */
  ghost predicate ItemsOk(s: State, stops: nat) {
    && s.next <= |s.items|
    && (s.stopAt.Some? ==> s.stopAt.value + stops <= |s.items|)
    && forall i :: 0 <= i < |s.items| ==>
         (s.items[i] == Stop <==> s.stopAt.Some? && s.stopAt.value <= i < s.stopAt.value + stops)
  }

  /** Task `i` has been taken and is either running on one worker or finished. */
  ghost predicate TaskOk(s: State, i: nat)
    requires i < |s.items|
  {
    s.items[i] == Work && i < s.next ==> i in s.finished || Busy(i) in s.workers
  }

  /** No task runs twice. */
  ghost predicate OnceOk(s: State) {
    && (forall i, j :: 0 <= i < j < |s.finished| ==> s.finished[i] != s.finished[j])
    && (forall i :: i in s.finished ==> i < s.next <= |s.items| && s.items[i] == Work && Busy(i) !in s.workers)
    && (forall v, w :: 0 <= v < w < |s.workers| && s.workers[v].Busy? ==> s.workers[v] != s.workers[w])
    && (forall w :: 0 <= w < |s.workers| && s.workers[w].Busy? ==>
          s.workers[w].index < s.next <= |s.items| && s.items[s.workers[w].index] == Work)
  }

  /** The number of terminators taken. */
  function StopsTaken(s: State, stops: nat): nat {
    if s.stopAt == None || s.next <= s.stopAt.value then 0
    else if s.next - s.stopAt.value <= stops then s.next - s.stopAt.value else stops
  }

  ghost predicate Inv(s: State, stops: nat) {
    && ItemsOk(s, stops) && OnceOk(s) && ExitCount(s.workers) == StopsTaken(s, stops)
    && forall i :: 0 <= i < |s.items| ==> TaskOk(s, i)
  }

  lemma InitialInv(s: State, stops: nat)
    requires Initial(s)
    ensures Inv(s, stops)
  {
    NoneExited(s.workers);
  }

  lemma QueueInv(s: State, e: Event, stops: nat)
    requires Inv(s, stops) && Enabled(s, e) && (e.Submit? || e.Shutdown?)
    ensures Inv(Apply(s, e, stops), stops)
  {
    var s' := Apply(s, e, stops);
    forall i | 0 <= i < |s'.items|
      ensures TaskOk(s', i)
    {
      if i < |s.items| {
        assert TaskOk(s, i);
      }
    }
  }

  lemma TakeInv(s: State, w: nat, stops: nat)
    requires Inv(s, stops) && Enabled(s, Take(w))
    ensures Inv(Apply(s, Take(w), stops), stops)
  {
    var s' := Apply(s, Take(w), stops);
    ExitChange(s.workers, w, s'.workers[w]);
    assert s'.workers[w] in s'.workers;
    forall i | 0 <= i < |s'.items|
      ensures TaskOk(s', i)
    {
      assert TaskOk(s, i);
      if Busy(i) in s.workers {
        var v :| 0 <= v < |s.workers| && s.workers[v] == Busy(i);
        assert s'.workers[v] == Busy(i);
      }
    }
    forall i | i in s'.finished
      ensures Busy(i) !in s'.workers
    {
      assert Busy(i) !in s.workers && i < s.next;
    }
  }

  lemma FinishInv(s: State, w: nat, stops: nat)
    requires Inv(s, stops) && Enabled(s, Finish(w))
    ensures Inv(Apply(s, Finish(w), stops), stops)
  {
    var s', k := Apply(s, Finish(w), stops), s.workers[w].index;
    ExitChange(s.workers, w, Idle);
    assert s.workers[w] in s.workers;
    assert s'.finished[|s.finished|] == k;
    forall i | 0 <= i < |s'.items|
      ensures TaskOk(s', i)
    {
      assert TaskOk(s, i);
      if Busy(i) in s.workers && i != k {
        var v :| 0 <= v < |s.workers| && s.workers[v] == Busy(i);
        assert s'.workers[v] == Busy(i);
      }
    }
    forall i | i in s'.finished
      ensures Busy(i) !in s'.workers
    {
      if i in s.finished {
        assert Busy(i) !in s.workers;
      }
    }
  }

  lemma StepInv(s: State, e: Event, stops: nat)
    requires Inv(s, stops) && Enabled(s, e)
    ensures Inv(Apply(s, e, stops), stops)
  {
    match e
    case Submit => QueueInv(s, e, stops);
    case Shutdown => QueueInv(s, e, stops);
    case Take(w) => TakeInv(s, w, stops);
    case Finish(w) => FinishInv(s, w, stops);
  }

  lemma {:induction false} RunInv(ss: seq<State>, es: seq<Event>, stops: nat, n: nat)
    requires IsRun(ss, es, stops) && Initial(ss[0]) && n <= |es|
    ensures Inv(ss[n], stops) && |ss[n].workers| == |ss[0].workers|
  {
    if n == 0 {
      InitialInv(ss[0], stops);
    } else {
      RunInv(ss, es, stops, n - 1);
      assert Enabled(ss[n - 1], es[n - 1]) && ss[n] == Apply(ss[n - 1], es[n - 1], stops);
      StepInv(ss[n - 1], es[n - 1], stops);
    }
  }

  // ---------------------------------------------------------------------------------------------
  // Shutdown.

  ghost predicate AllExited(s: State) {
    forall w :: 0 <= w < |s.workers| ==> s.workers[w] == Exited
  }

  /** Once every worker has exited, every task submitted before the shutdown has run, exactly once. */
  lemma ShutdownCompletes(ss: seq<State>, es: seq<Event>, stops: nat, n: nat, i: nat)
    requires IsRun(ss, es, stops) && Initial(ss[0]) && n <= |es| && |ss[0].workers| >= 1
    requires AllExited(ss[n])
    ensures ss[n].stopAt.Some? && (i < ss[n].stopAt.value ==> multiset(ss[n].finished)[i] == 1)
  {
    var s := ss[n];
    RunInv(ss, es, stops, n);
    ExitBound(s.workers);
    if i < s.stopAt.value {
      assert TaskOk(s, i);
      OnceInSeq(s.finished, i);
    }
  }

  lemma {:induction false} OnceInSeq(xs: seq<nat>, x: nat)
    requires forall i, j :: 0 <= i < j < |xs| ==> xs[i] != xs[j]
    ensures multiset(xs)[x] == if x in xs then 1 else 0
  {
    if xs != [] {
      var n := |xs| - 1;
      assert xs == xs[..n] + [xs[n]];
      OnceInSeq(xs[..n], x);
    }
  }

  /** With a terminator for every worker, no task submitted after the shutdown is ever taken. */
  lemma {:induction false} LateTasksNeverRun(ss: seq<State>, es: seq<Event>, stops: nat, n: nat)
    requires IsRun(ss, es, stops) && Initial(ss[0]) && n <= |es| && stops >= |ss[0].workers|
    ensures ss[n].stopAt.Some? ==> ss[n].next <= ss[n].stopAt.value + stops
    ensures ss[n].stopAt.Some? ==> forall i :: i in ss[n].finished ==> i < ss[n].stopAt.value
  {
    RunInv(ss, es, stops, n);
    if n > 0 {
      LateTasksNeverRun(ss, es, stops, n - 1);
      RunInv(ss, es, stops, n - 1);
      var s, e := ss[n - 1], es[n - 1];
      assert Enabled(s, e) && ss[n] == Apply(s, e, stops);
      ExitBound(s.workers);
    }
  }

  /** With fewer terminators than workers some worker never exits. */
  lemma TooFewStops(ss: seq<State>, es: seq<Event>, stops: nat, n: nat)
    requires IsRun(ss, es, stops) && Initial(ss[0]) && n <= |es| && stops < |ss[0].workers|
    ensures !AllExited(ss[n])
  {
    RunInv(ss, es, stops, n);
    ExitBound(ss[n].workers);
  }

  ghost predicate Stopping(s: State, stops: nat) {
    Inv(s, stops) && s.stopAt.Some? && s.next <= s.stopAt.value + stops && |s.workers| <= stops
  }

  /** With a terminator for every worker, all workers can exit from any state after the shutdown: finish what is
      running, take the next item, and so on. */
  lemma {:induction false} CanExit(s: State, stops: nat, w: nat) returns (ss: seq<State>, es: seq<Event>)
    requires Stopping(s, stops) && w <= |s.workers| && forall v :: 0 <= v < w ==> !s.workers[v].Busy?
    ensures IsRun(ss, es, stops) && ss[0] == s && AllExited(ss[|es|])
    decreases s.stopAt.value + stops - s.next, |s.workers| - w
  {
    if w < |s.workers| {
      if s.workers[w].Busy? {
        var s' := Apply(s, Finish(w), stops);
        StepInv(s, Finish(w), stops);
        ss, es := CanExit(s', stops, w + 1);
        ss, es := RunPrepend(s, Finish(w), ss, es, stops);
      } else {
        ss, es := CanExit(s, stops, w + 1);
      }
    } else if AllExited(s) {
      ss, es := [s], [];
    } else {
      var v :| 0 <= v < |s.workers| && s.workers[v] != Exited;
      ExitBound(s.workers);
      var s' := Apply(s, Take(v), stops);
      StepInv(s, Take(v), stops);
      ss, es := CanExit(s', stops, 0);
      ss, es := RunPrepend(s, Take(v), ss, es, stops);
    }
  }

  lemma RunPrepend(s: State, e: Event, ss: seq<State>, es: seq<Event>, stops: nat)
    returns (ss': seq<State>, es': seq<Event>)
    requires Enabled(s, e) && IsRun(ss, es, stops) && ss[0] == Apply(s, e, stops)
    ensures IsRun(ss', es', stops) && ss'[0] == s && |es'| == |es| + 1 && ss'[|es'|] == ss[|es|]
  {
    ss', es' := [s] + ss, [e] + es;
    forall i | 0 <= i < |es'|
      ensures Enabled(ss'[i], es'[i]) && ss'[i + 1] == Apply(ss'[i], es'[i], stops)
    {
      if i > 0 {
        assert Enabled(ss[i - 1], es[i - 1]) && ss[i] == Apply(ss[i - 1], es[i - 1], stops);
      }
    }
  }

  /** After the shutdown no state but the final one is without a next step. */
  lemma NoDeadlock(s: State, stops: nat) returns (e: Event)
    requires Stopping(s, stops) && !AllExited(s)
    ensures Enabled(s, e) && (e.Take? || e.Finish?)
  {
    var w: nat :| w < |s.workers| && s.workers[w] != Exited;
    ExitBound(s.workers);
    e := if s.workers[w].Busy? then Finish(w) else Take(w);
  }

  // ---------------------------------------------------------------------------------------------
  // Several workgroups, each given the average number of terminators.

  function Sum(sizes: seq<nat>): nat {
    if sizes == [] then 0 else Sum(sizes[..|sizes| - 1]) + sizes[|sizes| - 1]
  }

  lemma {:induction false} SumBelow(sizes: seq<nat>, m: nat)
    requires forall g :: 0 <= g < |sizes| ==> sizes[g] <= m
    ensures Sum(sizes) <= |sizes| * m
    ensures Sum(sizes) == |sizes| * m ==> forall g :: 0 <= g < |sizes| ==> sizes[g] == m
  {
    if sizes != [] {
      var n := |sizes| - 1;
      SumBelow(sizes[..n], m);
      assert |sizes| * m == n * m + m;
      assert forall g :: 0 <= g < n ==> sizes[..n][g] == sizes[g];
    }
  }

  lemma {:induction false} SumEqual(sizes: seq<nat>, m: nat)
    requires forall g :: 0 <= g < |sizes| ==> sizes[g] == m
    ensures Sum(sizes) == |sizes| * m
  {
    if sizes != [] {
      SumEqual(sizes[..|sizes| - 1], m);
      assert |sizes| * m == (|sizes| - 1) * m + m;
    }
  }

  predicate AllAtMost(sizes: seq<nat>, m: nat) {
    forall g :: 0 <= g < |sizes| ==> sizes[g] <= m
  }

  predicate AllSame(sizes: seq<nat>) {
    forall g :: 0 <= g < |sizes| ==> sizes[g] == sizes[0]
  }

  function StopsPerGroup(sizes: seq<nat>): nat
    requires sizes != []
  {
    Arith.DivBound(Sum(sizes), |sizes|);
    Sum(sizes) / |sizes|
  }

  /** Every group gets a terminator for each of its workers exactly if all groups have the same size. */
  lemma EnoughStopsIff(sizes: seq<nat>)
    requires sizes != []
    ensures AllAtMost(sizes, StopsPerGroup(sizes)) <==> AllSame(sizes)
  {
    if AllAtMost(sizes, StopsPerGroup(sizes)) {
      Arith.DivBound(Sum(sizes), |sizes|);
      AverageReached(sizes, StopsPerGroup(sizes));
    }
    if AllSame(sizes) {
      SumEqual(sizes, sizes[0]);
      SameAverage(Sum(sizes), |sizes|, sizes[0]);
    }
  }

  lemma AverageReached(sizes: seq<nat>, m: nat)
    requires AllAtMost(sizes, m) && m * |sizes| <= Sum(sizes)
    ensures AllSame(sizes)
  {
    SumBelow(sizes, m);
  }

  lemma SameAverage(sum: nat, n: nat, m: nat)
    requires n >= 1 && sum == n * m
    ensures sum / n == m
  {
    Arith.ModUnique(sum, n, m, 0);
  }

  /** A run from `s` after which every worker has exited. */
  ghost predicate LeadsToExit(s: State, ss: seq<State>, es: seq<Event>, stops: nat) {
    IsRun(ss, es, stops) && ss[0] == s && AllExited(ss[|es|])
  }

  ghost predicate CanStillExit(s: State, stops: nat) {
    exists ss, es :: LeadsToExit(s, ss, es, stops)
  }

  ghost predicate Reaches(size: nat, ss: seq<State>, es: seq<Event>, stops: nat) {
    IsRun(ss, es, stops) && Initial(ss[0]) && |ss[0].workers| == size
  }

  /** A group of `size` workers never gets to a point from which its workers can no longer all exit. */
  ghost predicate NeverHangs(size: nat, stops: nat) {
    forall ss, es :: Reaches(size, ss, es, stops) ==> CanStillExit(ss[|es|], stops)
  }

  lemma NeverHangsIff(size: nat, stops: nat)
    ensures NeverHangs(size, stops) <==> size <= stops
  {
    if size <= stops {
      forall ss, es | Reaches(size, ss, es, stops)
        ensures CanStillExit(ss[|es|], stops)
      {
        ReachedCanExit(ss, es, stops);
      }
    } else {
      var s := State([], 0, seq(size, _ => Idle), [], None);
      assert Reaches(size, [s], [], stops);
      forall ss, es | LeadsToExit(s, ss, es, stops)
        ensures false
      {
        TooFewStops(ss, es, stops, |es|);
      }
    }
  }

  lemma ReachedCanExit(ss: seq<State>, es: seq<Event>, stops: nat)
    requires IsRun(ss, es, stops) && Initial(ss[0]) && |ss[0].workers| <= stops
    ensures CanStillExit(ss[|es|], stops)
  {
    var s := ss[|es|];
    RunInv(ss, es, stops, |es|);
    if s.stopAt.Some? {
      LateTasksNeverRun(ss, es, stops, |es|);
      var ss', es' := CanExit(s, stops, 0);
      assert LeadsToExit(s, ss', es', stops);
    } else {
      StepInv(s, Shutdown, stops);
      var ss', es' := CanExit(Apply(s, Shutdown, stops), stops, 0);
      ss', es' := RunPrepend(s, Shutdown, ss', es', stops);
      assert LeadsToExit(s, ss', es', stops);
    }
  }

  /** A pool can be shut down from every state that it can reach, in each of its groups, exactly if all groups have the
      same size. */
  lemma PoolExitsIff(sizes: seq<nat>)
    requires sizes != []
    ensures (forall g :: 0 <= g < |sizes| ==> NeverHangs(sizes[g], StopsPerGroup(sizes))) <==> AllSame(sizes)
  {
    var m := StopsPerGroup(sizes);
    forall g | 0 <= g < |sizes|
      ensures NeverHangs(sizes[g], m) <==> sizes[g] <= m
    {
      NeverHangsIff(sizes[g], m);
    }
    EnoughStopsIff(sizes);
  }

  /** Nothing that was submitted after the shutdown has run. */
  ghost predicate NoLateTask(s: State) {
    s.stopAt.Some? ==> forall i :: i in s.finished ==> i < s.stopAt.value
  }

  ghost predicate NeverRunsLate(size: nat, stops: nat) {
    forall ss, es :: Reaches(size, ss, es, stops) ==> NoLateTask(ss[|es|])
  }

  /** After a shutdown and one more submission, when `n` workers have taken a terminator each. */
  function Drained(size: nat, stops: nat, n: nat): State
    requires n <= stops <= size
  {
    State(seq(stops, _ => Stop) + [Work], n, seq(size, w => if w < n then Exited else Idle), [], Some(0))
  }

  lemma {:induction false} DrainedRun(size: nat, stops: nat, n: nat) returns (ss: seq<State>, es: seq<Event>)
    requires n <= stops <= size
    ensures Reaches(size, ss, es, stops) && ss[|es|] == Drained(size, stops, n)
  {
    if n == 0 {
      var s0 := State([], 0, seq(size, _ => Idle), [], None);
      var s1 := Apply(s0, Shutdown, stops);
      var s2 := Apply(s1, Submit, stops);
      ss, es := [s0, s1, s2], [Shutdown, Submit];
      assert s2.items == Drained(size, stops, 0).items && s2.workers == Drained(size, stops, 0).workers;
    } else {
      ss, es := DrainedRun(size, stops, n - 1);
      var s, s' := Drained(size, stops, n - 1), Drained(size, stops, n);
      assert s.items[s.next] == Stop && s.workers[n - 1] == Idle;
      assert Apply(s, Take(n - 1), stops).workers == s'.workers;
      ss, es := RunAppend(ss, es, Take(n - 1), stops);
    }
  }

  lemma RunAppend(ss: seq<State>, es: seq<Event>, e: Event, stops: nat) returns (ss': seq<State>, es': seq<Event>)
    requires IsRun(ss, es, stops) && Enabled(ss[|es|], e)
    ensures IsRun(ss', es', stops) && ss'[0] == ss[0] && |es'| == |es| + 1 && ss'[|es'|] == Apply(ss[|es|], e, stops)
  {
    ss', es' := ss + [Apply(ss[|es|], e, stops)], es + [e];
    forall i | 0 <= i < |es'|
      ensures Enabled(ss'[i], es'[i]) && ss'[i + 1] == Apply(ss'[i], es'[i], stops)
    {
      if i < |es| {
        assert Enabled(ss[i], es[i]) && ss[i + 1] == Apply(ss[i], es[i], stops);
      }
    }
  }

  /** With a worker to spare, what is behind the terminators runs. */
  lemma LateTaskRuns(size: nat, stops: nat) returns (ss: seq<State>, es: seq<Event>)
    requires stops < size
    ensures Reaches(size, ss, es, stops) && !NoLateTask(ss[|es|])
  {
    ss, es := DrainedRun(size, stops, stops);
    assert ss[|es|].items[stops] == Work && ss[|es|].workers[stops] == Idle;
    ss, es := RunAppend(ss, es, Take(stops), stops);
    ss, es := RunAppend(ss, es, Finish(stops), stops);
    assert ss[|es|].finished == [stops] && stops in ss[|es|].finished;
  }

  /** What is submitted after the shutdown never runs if and only if there is a terminator for every worker. */
  lemma NeverRunsLateIff(size: nat, stops: nat)
    ensures NeverRunsLate(size, stops) <==> size <= stops
  {
    if size <= stops {
      forall ss, es | Reaches(size, ss, es, stops)
        ensures NoLateTask(ss[|es|])
      {
        LateTasksNeverRun(ss, es, stops, |es|);
      }
    } else {
      var ss, es := LateTaskRuns(size, stops);
    }
  }

  /** In a pool that holds of every group exactly if all groups have the same size. */
  lemma PoolRunsLateIff(sizes: seq<nat>)
    requires sizes != []
    ensures (forall g :: 0 <= g < |sizes| ==> NeverRunsLate(sizes[g], StopsPerGroup(sizes))) <==> AllSame(sizes)
  {
    var m := StopsPerGroup(sizes);
    forall g | 0 <= g < |sizes|
      ensures NeverRunsLate(sizes[g], m) <==> sizes[g] <= m
    {
      NeverRunsLateIff(sizes[g], m);
    }
    EnoughStopsIff(sizes);
  }
}
