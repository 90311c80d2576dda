/** Submitting a batch of indexed tasks to a thread pool in bursts: `perGroup` tasks to a workgroup, the next ones to
    the next, around the given list of workgroups. */
module BurstSubmit {

  import Arith

  datatype Plan = Plan(groups: seq<nat>, perGroup: nat, numGroups: nat)

  predicate PlanOk(p: Plan) {
    p.groups != [] && p.perGroup >= 1 && p.numGroups >= 1
  }

  /** The workgroup of the `i`th task of a batch. */
  function Target(p: Plan, i: nat): nat
    requires PlanOk(p)
  {
    p.groups[i / p.perGroup % |p.groups|] % p.numGroups
  }

  function Targets(p: Plan, n: nat): (ts: seq<nat>)
    requires PlanOk(p)
    ensures |ts| == n
  {
    seq(n, i requires 0 <= i => Target(p, i))
  }

  /** What the first `n` tasks of a batch with targets `ts`, numbered from `first`, add to the queue of workgroup
      `g`. */
  ghost function Share(ts: seq<nat>, g: nat, first: int, n: nat): seq<int>
    requires n <= |ts|
  {
    if n == 0 then [] else Share(ts, g, first, n - 1) + if ts[n - 1] == g then [first + n - 1] else []
  }

  /** A task is in the share of its target and in no other; nothing else is. */
  lemma {:induction false} ShareExact(ts: seq<nat>, g: nat, first: int, n: nat, i: int)
    requires n <= |ts|
    ensures first + i in Share(ts, g, first, n) <==> 0 <= i < n && ts[i] == g
  {
    if n > 0 {
      ShareExact(ts, g, first, n - 1, i);
    }
  }

  /** A workgroup gets its share in submission order, no task twice. */
  lemma {:induction false} ShareAscends(ts: seq<nat>, g: nat, first: int, n: nat, a: nat, b: nat)
    requires n <= |ts| && a <= b < |Share(ts, g, first, n)|
    ensures first <= Share(ts, g, first, n)[b] < first + n
    ensures a < b ==> Share(ts, g, first, n)[a] < Share(ts, g, first, n)[b]
  {
    var sh := Share(ts, g, first, n - 1);
    if b < |sh| {
      ShareAscends(ts, g, first, n - 1, a, b);
    } else if a < b {
      ShareAscends(ts, g, first, n - 1, a, a);
    }
  }

  function Range(first: int, n: nat): seq<int> {
    seq(n, i => first + i)
  }

  /** A burst to one workgroup. */
  lemma {:induction false} ShareBurst(ts: seq<nat>, g: nat, first: int, n: nat, m: nat, wg: nat)
    requires n + m <= |ts| && forall i :: n <= i < n + m ==> ts[i] == wg
    ensures Share(ts, g, first, n + m) == Share(ts, g, first, n) + if g == wg then Range(first + n, m) else []
    decreases m
  {
    if m > 0 {
      ShareBurst(ts, g, first, n, m - 1, wg);
      assert Range(first + n, m) == Range(first + n, m - 1) + [first + n + m - 1];
    }
  }

  lemma BurstTarget(p: Plan, k: nat, i: nat)
    requires PlanOk(p) && k * p.perGroup <= i < k * p.perGroup + p.perGroup
    ensures Target(p, i) == p.groups[k % |p.groups|] % p.numGroups
  {
    Arith.ModUnique(i, p.perGroup, k, i - k * p.perGroup);
  }

  lemma NextBurst(k: nat, per: nat)
    ensures (k + 1) * per == k * per + per
  {
  }

  /** The cursor into the list of workgroups wraps around. */
  lemma Wrap(k: nat, n: nat)
    requires n >= 1
    ensures (k + 1) % n == if k % n + 1 == n then 0 else k % n + 1
  {
    Arith.DivBound(k, n);
    var q, r := k / n, k % n;
    if r + 1 == n {
      assert k + 1 == (q + 1) * n + 0;
      Arith.ModUnique(k + 1, n, q + 1, 0);
    } else {
      Arith.ModUnique(k + 1, n, q, r + 1);
    }
  }

  function Max(a: int, b: int): (r: int)
    ensures r >= a && r >= b && (r == a || r == b)
  {
    if a >= b then a else b
  }

  /** Every queue has gained its share of the first `n` tasks. */
  ghost predicate Queued(ts: seq<nat>, was: seq<seq<int>>, now: seq<seq<int>>, first: int, n: nat) {
    && n <= |ts| && |was| == |now|
    && forall g :: 0 <= g < |now| ==> now[g] == was[g] + Share(ts, g, first, n)
  }

  /** The first `n` results are those of the first `n` tasks; the others are untouched. */
  ghost predicate Filled(was: seq<int>, now: seq<int>, first: int, n: nat) {
    |was| == |now| && forall i :: 0 <= i < |now| ==> now[i] == if i < n then first + i else was[i]
  }

  lemma QueuedBurst(p: Plan, ts: seq<nat>, was: seq<seq<int>>, now: seq<seq<int>>, first: int, k: nat, n: nat, m: nat)
    requires PlanOk(p) && ts == Targets(p, |ts|) && n == k * p.perGroup && n + m <= |ts| && m <= p.perGroup
    requires Queued(ts, was, now, first, n) && |now| == p.numGroups
    ensures var wg := p.groups[k % |p.groups|] % p.numGroups;
            Queued(ts, was, now[wg := now[wg] + Range(first + n, m)], first, n + m)
  {
    var wg := p.groups[k % |p.groups|] % p.numGroups;
    forall i | n <= i < n + m
      ensures ts[i] == wg
    {
      BurstTarget(p, k, i);
    }
    QueuedTo(ts, was, now, first, n, m, wg);
  }

  lemma QueuedTo(ts: seq<nat>, was: seq<seq<int>>, now: seq<seq<int>>, first: int, n: nat, m: nat, wg: nat)
    requires n + m <= |ts| && (forall i :: n <= i < n + m ==> ts[i] == wg) && wg < |now|
    requires Queued(ts, was, now, first, n)
    ensures Queued(ts, was, now[wg := now[wg] + Range(first + n, m)], first, n + m)
  {
    forall g | 0 <= g < |now|
      ensures Share(ts, g, first, n + m) == Share(ts, g, first, n) + if g == wg then Range(first + n, m) else []
    {
      ShareBurst(ts, g, first, n, m, wg);
    }
  }

  class Pool {
    const numGroups: nat
    var queues: seq<seq<int>>

    constructor (numGroups: nat)
      ensures this.numGroups == numGroups && queues == seq(numGroups, _ => [])
    {
      this.numGroups := numGroups;
      queues := seq(numGroups, _ => []);
    }

    /** Queues `n` tasks, numbered from `first`, in workgroup `wg`, and stores their results from `at` on. */
    method SubmitGroup(first: int, n: nat, results: array<int>, at: nat, wg: nat) returns (next: int)
      requires wg < |queues| == numGroups && at + n <= results.Length
      modifies this, results
      ensures next == first + n
      ensures queues == old(queues)[wg := old(queues)[wg] + Range(first, n)]
      ensures forall i :: 0 <= i < results.Length ==>
                results[i] == if at <= i < at + n then first + (i - at) else old(results[i])
    {
      next := first;
      ghost var was := queues;
      assert was[wg] + Range(first, 0) == was[wg];
      for i := 0 to n
        invariant next == first + i
        invariant queues == was[wg := was[wg] + Range(first, i)]
        invariant forall j :: 0 <= j < results.Length ==>
          results[j] == if at <= j < at + i then first + (j - at) else old(results[j])
      {
        results[at + i] := next;
        assert was[wg] + Range(first, i + 1) == was[wg] + Range(first, i) + [next];
        queues := queues[wg := queues[wg] + [next]];
        next := next + 1;
      }
    }

    /** The `k`th burst. */
    method SubmitBurst(ghost p: Plan, ghost ts: seq<nat>, ghost was: seq<seq<int>>, ghost filled: seq<int>,
                       ghost first: int, ghost k: nat, at: nat, n: nat, wg: nat, task: int, results: array<int>)
      returns (next: int)
      requires PlanOk(p) && ts == Targets(p, |ts|) && at == k * p.perGroup && at + n <= |ts| && n <= p.perGroup
      requires wg == p.groups[k % |p.groups|] % p.numGroups && |queues| == numGroups == p.numGroups
      requires task == first + at && at + n <= results.Length
      requires Queued(ts, was, queues, first, at) && Filled(filled, results[..], first, at)
      modifies this, results
      ensures next == first + at + n && |queues| == numGroups
      ensures Queued(ts, was, queues, first, at + n) && Filled(filled, results[..], first, at + n)
    {
      QueuedBurst(p, ts, was, queues, first, k, at, n);
      next := SubmitGroup(task, n, results, at, wg);
    }

    /** Distributes a batch in bursts. Without a workgroup it refuses and changes nothing. */
    method SubmitN(taskIdx: int, numTasks: int, results: array<int>, groups: seq<nat>, perGroup: int)
      returns (ok: bool, next: int)
      requires |queues| == numGroups >= 1 && numTasks <= results.Length
      modifies this, results
      ensures ok == (groups != [])
      ensures !ok ==> queues == old(queues) && results[..] == old(results[..])
      ensures ok ==> next == taskIdx + Max(numTasks, 0)
      ensures ok ==> Queued(Targets(Plan(groups, Max(perGroup, 1), numGroups), Max(numTasks, 0)), old(queues),
                            queues, taskIdx, Max(numTasks, 0))
      ensures ok ==> Filled(old(results[..]), results[..], taskIdx, Max(numTasks, 0))
    {
      ok, next := groups != [], taskIdx;
      if !ok {
        return;
      }
      ghost var p := Plan(groups, Max(perGroup, 1), numGroups);
      ghost var ts := Targets(p, Max(numTasks, 0));
      ghost var was, filled := queues, results[..];
      var per: nat := Max(perGroup, 1);
      var left, it, at: nat := numTasks, 0, 0;
      ghost var k: nat := 0;
      while left > 0
        invariant at == k * per && left == numTasks - at && it == k % |groups|
        invariant next == taskIdx + Done(numTasks, at)
        invariant |queues| == numGroups && Queued(ts, was, queues, taskIdx, Done(numTasks, at))
        invariant Filled(filled, results[..], taskIdx, Done(numTasks, at))
        decreases left
      {
        var wg := groups[it] % numGroups;
        Wrap(k, |groups|);
        it := if it + 1 == |groups| then 0 else it + 1;
        var n: nat := if left < per then left else per;
        NextBurst(k, per);
        next := SubmitBurst(p, ts, was, filled, taskIdx, k, at, n, wg, next, results);
        assert Done(numTasks, at + per) == at + n;
        k, at, left := k + 1, at + per, left - per;
      }
    }
  }

  /** How many of `n` tasks are submitted when the result cursor is at `at`. */
  ghost function Done(n: int, at: nat): nat {
    if n <= 0 then 0 else if at <= n then at else n
  }
}
