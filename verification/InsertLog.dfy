/** What the auto-insert handler inserts, told from the calls alone: a log of which call gave how many keys, kept
    beside a run without looking at the handler. */
module InsertLog {

  import opened AutoInsert
  import opened Common

  /** The call of event `event` gives its first `size` keys. */
  datatype Take = Take(event: nat, size: nat)

  /** What was taken since the last insert or modify section, how many keys that is, the stride of the collection, and
      how many calls are to be skipped before the next one. */
  datatype Log = Log(takes: seq<Take>, count: nat, stride: nat, wait: nat)

  const START := Log([], 0, 0, 0)

  /** A call adds to a collection in progress, up to the minimum size; otherwise it is skipped, or starts one with all
      its keys if the heuristic asks for it. */
  function LogStep(c: Config, log: Log, e: Event, i: nat): Log {
    match e
    case DoWork(_, call) =>
      if log.count > 0 then
        if call.stride != log.stride || log.count > c.minSize then log
        else
          var size := if |call.keys| < c.minSize - log.count then |call.keys| else c.minSize - log.count;
          log.(takes := log.takes + [Take(i, size)], count := log.count + size)
      else if log.wait > 0 then log.(wait := log.wait - 1)
      else if call.needed then Log([Take(i, |call.keys|)], |call.keys|, call.stride, 0)
      else log
    case RunTask => Log([], 0, log.stride, c.minWait)
    case UnlockModify(_) => Log([], 0, log.stride, log.wait)
    case _ => log
  }

  function LogAt(c: Config, es: seq<Event>, n: nat): Log
    requires n <= |es|
  {
    if n == 0 then START else LogStep(c, LogAt(c, es, n - 1), es[n - 1], n - 1)
  }

  /** The keys that a take adds: each as given if there is no hit mask or it was a hit, the sentinel otherwise. */
  ghost function KeysTaken(c: Config, es: seq<Event>, t: Take): seq<int>
    requires TakeOk(es, t)
  {
    var call := es[t.event].call;
    seq(t.size, j requires 0 <= j < t.size =>
      if call.hits == None || call.hits.value[j] then call.keys[j] else c.sentinel)
  }

  /** The cells of their rows. */
  ghost function DataTaken(es: seq<Event>, t: Take): seq<int>
    requires TakeOk(es, t)
  {
    es[t.event].call.data[..Cells(t.size, es[t.event].call.stride)]
  }

  ghost predicate TakeOk(es: seq<Event>, t: Take) {
    && t.event < |es| && es[t.event].DoWork? && CallOk(es[t.event].call) && t.size <= |es[t.event].call.keys|
    && Cells(t.size, es[t.event].call.stride) <= |es[t.event].call.data|
  }

  ghost predicate TakesOk(es: seq<Event>, ts: seq<Take>) {
    forall m :: 0 <= m < |ts| ==> TakeOk(es, ts[m])
  }

  ghost function AllKeys(c: Config, es: seq<Event>, ts: seq<Take>): seq<int>
    requires TakesOk(es, ts)
  {
    if ts == [] then [] else AllKeys(c, es, ts[..|ts| - 1]) + KeysTaken(c, es, ts[|ts| - 1])
  }

  ghost function AllData(es: seq<Event>, ts: seq<Take>): seq<int>
    requires TakesOk(es, ts)
  {
    if ts == [] then [] else AllData(es, ts[..|ts| - 1]) + DataTaken(es, ts[|ts| - 1])
  }

  // ---------------------------------------------------------------------------------------------
  // The log follows the handler.

  ghost predicate PieceOf(c: Config, es: seq<Event>, p: Piece, t: Take) {
    TakeOk(es, t) && p.keys == KeysTaken(c, es, t) && p.data == DataTaken(es, t)
  }

  predicate CountsFollow(s: State, log: Log) {
    s.h.collected == log.count && s.h.freq == log.wait && (log.count > 0 ==> s.h.stride == log.stride)
  }

  ghost predicate PiecesFollow(c: Config, es: seq<Event>, ps: seq<Piece>, ts: seq<Take>) {
    |ps| == |ts| && forall m :: 0 <= m < |ts| ==> PieceOf(c, es, ps[m], ts[m])
  }

  ghost predicate Follows(c: Config, es: seq<Event>, s: State, log: Log) {
    CountsFollow(s, log) && PiecesFollow(c, es, s.pieces, log.takes)
  }

  lemma MaskedIs(c: Config, call: Call, n: nat)
    requires CallOk(call) && n <= |call.keys|
    ensures Masked(c, call, n) == seq(n, j requires 0 <= j < n =>
              if call.hits == None || call.hits.value[j] then call.keys[j] else c.sentinel)
  {
  }

  /** A call that collects adds the piece that the log takes. */
  lemma PieceTaken(c: Config, s: State, es: seq<Event>, i: nat)
    requires Inv(c, s) && i < |es| && es[i].DoWork? && Enabled(c, s, es[i]) && Collects(s.h, es[i].call)
    ensures var call, part := es[i].call, PartSize(c, s.h, es[i].call);
            && Cells(part, call.stride) <= |call.data|
            && PieceOf(c, es, Piece(Masked(c, call, part), call.data[..Cells(part, call.stride)]), Take(i, part))
  {
    var call, part := es[i].call, PartSize(c, s.h, es[i].call);
    CollectCells(c, s.h.(stride := call.stride), call);
    MaskedIs(c, call, part);
  }

  lemma WorkCounts(c: Config, s: State, call: Call, id: nat, i: nat, log: Log)
    requires Inv(c, s) && Enabled(c, s, DoWork(id, call)) && CountsFollow(s, log)
    ensures CountsFollow(AfterWork(c, s, call), LogStep(c, log, DoWork(id, call), i))
  {
  }

  lemma WorkTakes(c: Config, s: State, call: Call, id: nat, i: nat, log: Log)
    requires Inv(c, s) && Enabled(c, s, DoWork(id, call)) && CountsFollow(s, log)
    ensures LogStep(c, log, DoWork(id, call), i).takes ==
            if !Collects(s.h, call) then log.takes
            else (if s.h.collected == 0 then [] else log.takes) + [Take(i, PartSize(c, s.h, call))]
  {
  }

  lemma WorkFollows(c: Config, s: State, es: seq<Event>, i: nat, log: Log)
    requires Inv(c, s) && i < |es| && es[i].DoWork? && Enabled(c, s, es[i]) && Follows(c, es, s, log)
    ensures Follows(c, es, Next(c, s, es[i]), LogStep(c, log, es[i], i))
  {
    WorkCounts(c, s, es[i].call, es[i].id, i, log);
    WorkTakes(c, s, es[i].call, es[i].id, i, log);
    if Collects(s.h, es[i].call) {
      PieceTaken(c, s, es, i);
    }
    assert Next(c, s, es[i]).pieces == NextPieces(c, s, es[i].call);
  }

  lemma StepFollows(c: Config, s: State, es: seq<Event>, i: nat, log: Log)
    requires Inv(c, s) && i < |es| && Enabled(c, s, es[i]) && Follows(c, es, s, log)
    ensures Follows(c, es, Next(c, s, es[i]), LogStep(c, log, es[i], i))
  {
    if es[i].DoWork? {
      WorkFollows(c, s, es, i, log);
    }
  }

  lemma {:induction false} RunFollows(c: Config, ss: seq<State>, es: seq<Event>, n: nat)
    requires IsRun(c, ss, es) && n <= |es|
    ensures Follows(c, es, ss[n], LogAt(c, es, n))
  {
    if n > 0 {
      RunFollows(c, ss, es, n - 1);
      RunInv(c, ss, es, n - 1);
      assert IsStep(c, ss[n - 1], es[n - 1], ss[n]);
      StepFollows(c, ss[n - 1], es, n - 1, LogAt(c, es, n - 1));
    }
  }

  lemma {:induction false} ConcatIs(c: Config, es: seq<Event>, ps: seq<Piece>, ts: seq<Take>)
    requires PiecesFollow(c, es, ps, ts)
    ensures TakesOk(es, ts) && ConcatKeys(ps) == AllKeys(c, es, ts) && ConcatData(ps) == AllData(es, ts)
  {
    if ts != [] {
      ConcatIs(c, es, ps[..|ps| - 1], ts[..|ts| - 1]);
    }
  }

  // ---------------------------------------------------------------------------------------------
  // What is inserted.

  /** The inserts of a run up to event `n`. */
  ghost predicate InsertsAre(c: Config, es: seq<Event>, n: nat, batches: seq<Batch>)
    requires n <= |es|
  {
    if n == 0 then batches == []
    else if es[n - 1] != RunTask then InsertsAre(c, es, n - 1, batches)
    else batches != [] && InsertsAre(c, es, n - 1, batches[..|batches| - 1]) &&
         IsInsert(c, es, LogAt(c, es, n - 1), batches[|batches| - 1])
  }

  /** A batch is what the log has taken, call by call. */
  ghost predicate IsInsert(c: Config, es: seq<Event>, log: Log, b: Batch) {
    && TakesOk(es, log.takes) && b == Batch(AllKeys(c, es, log.takes), AllData(es, log.takes), log.stride)
    && |b.keys| == log.count && log.count >= c.minSize && log.count > 0
  }

  lemma TaskInserts(c: Config, ss: seq<State>, es: seq<Event>, n: nat)
    requires IsRun(c, ss, es) && n < |es| && es[n] == RunTask
    ensures |ss[n + 1].batches| == |ss[n].batches| + 1 && ss[n + 1].batches[..|ss[n].batches|] == ss[n].batches
    ensures IsInsert(c, es, LogAt(c, es, n), ss[n + 1].batches[|ss[n].batches|])
  {
    BatchIsCollection(c, ss, es, n);
    RunFollows(c, ss, es, n);
    RunInv(c, ss, es, n);
    assert IsStep(c, ss[n], es[n], ss[n + 1]);
    ConcatIs(c, es, ss[n].pieces, LogAt(c, es, n).takes);
  }

  lemma OthersInsertNothing(c: Config, ss: seq<State>, es: seq<Event>, n: nat)
    requires IsRun(c, ss, es) && n < |es| && es[n] != RunTask
    ensures ss[n + 1].batches == ss[n].batches
  {
    RunInv(c, ss, es, n);
    assert IsStep(c, ss[n], es[n], ss[n + 1]);
  }

  /** In every run the inserted batches are those that the log tells, in order and no others. */
  lemma {:induction false} RunInserts(c: Config, ss: seq<State>, es: seq<Event>, n: nat)
    requires IsRun(c, ss, es) && n <= |es|
    ensures InsertsAre(c, es, n, ss[n].batches)
  {
    if n > 0 {
      RunInserts(c, ss, es, n - 1);
      if es[n - 1] == RunTask {
        TaskInserts(c, ss, es, n - 1);
      } else {
        OthersInsertNothing(c, ss, es, n - 1);
      }
    }
  }

  function Offset(ts: seq<Take>, m: nat): nat
    requires m <= |ts|
  {
    if m == 0 then 0 else Offset(ts, m - 1) + ts[m - 1].size
  }

  lemma {:induction false} AllKeysAt(c: Config, es: seq<Event>, ts: seq<Take>, m: nat, j: nat)
    requires TakesOk(es, ts) && m < |ts| && j < ts[m].size
    ensures |AllKeys(c, es, ts)| == Offset(ts, |ts|) && Offset(ts, m) + j < |AllKeys(c, es, ts)|
    ensures AllKeys(c, es, ts)[Offset(ts, m) + j] == KeysTaken(c, es, ts[m])[j]
    decreases |ts|
  {
    var n := |ts| - 1;
    AllKeysSize(c, es, ts);
    AllKeysSize(c, es, ts[..n]);
    OffsetPrefix(ts, n, n);
    OffsetPrefix(ts, n, m);
    if m < n {
      AllKeysAt(c, es, ts[..n], m, j);
    }
  }

  lemma {:induction false} OffsetPrefix(ts: seq<Take>, n: nat, m: nat)
    requires m <= n <= |ts|
    ensures Offset(ts[..n], m) == Offset(ts, m)
  {
    if m > 0 {
      OffsetPrefix(ts, n, m - 1);
    }
  }

  lemma {:induction false} AllKeysSize(c: Config, es: seq<Event>, ts: seq<Take>)
    requires TakesOk(es, ts)
    ensures |AllKeys(c, es, ts)| == Offset(ts, |ts|)
  {
    if ts != [] {
      var n := |ts| - 1;
      AllKeysSize(c, es, ts[..n]);
      OffsetPrefix(ts, n, n);
    }
  }

  /** Key `j` of the `m`th call of a batch is inserted as it was given if there is no hit mask or it was a hit, and as
      the sentinel otherwise. */
  lemma InsertedKey(c: Config, ss: seq<State>, es: seq<Event>, n: nat, m: nat, j: nat)
    requires IsRun(c, ss, es) && n < |es| && es[n] == RunTask
    requires m < |LogAt(c, es, n).takes| && j < LogAt(c, es, n).takes[m].size
    ensures |ss[n + 1].batches| > 0
    ensures var ts, b := LogAt(c, es, n).takes, ss[n + 1].batches[|ss[n + 1].batches| - 1];
            && TakeOk(es, ts[m]) && Offset(ts, m) + j < |b.keys|
            && var call := es[ts[m].event].call;
               b.keys[Offset(ts, m) + j] == if call.hits.Some? && !call.hits.value[j] then c.sentinel else call.keys[j]
  {
    TaskInserts(c, ss, es, n);
    AllKeysAt(c, es, LogAt(c, es, n).takes, m, j);
  }

  // ---------------------------------------------------------------------------------------------
  // Waiting.

  /** The number of calls that take the lock from event `i` up to event `n`. */
  function Works(es: seq<Event>, i: nat, n: nat): nat
    requires n <= |es|
  {
    if n <= i then 0 else Works(es, i, n - 1) + if es[n - 1].DoWork? then 1 else 0
  }

  lemma {:induction false} WaitsDown(c: Config, es: seq<Event>, i: nat, n: nat)
    requires i < n <= |es| && es[i] == RunTask
    ensures LogAt(c, es, n).wait + Works(es, i, n) >= c.minWait
  {
    if n > i + 1 {
      WaitsDown(c, es, i, n - 1);
    }
  }

  /** After an insert, the call that starts the next collection has at least `minWait` others before it. */
  lemma WaitsSince(c: Config, ss: seq<State>, es: seq<Event>, i: nat, n: nat)
    requires IsRun(c, ss, es) && i < n < |es| && es[i] == RunTask && es[n].DoWork?
    requires ss[n].h.collected == 0 && ss[n + 1].h.collected > 0
    ensures Works(es, i, n) >= c.minWait
  {
    RunFollows(c, ss, es, n);
    RunInv(c, ss, es, n);
    assert IsStep(c, ss[n], es[n], ss[n + 1]);
    WaitsDown(c, es, i, n);
  }
}
