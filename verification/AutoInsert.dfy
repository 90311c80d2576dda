/** The auto-insert handler: lookups hand it keys and rows, it collects them until there are enough, and a task on the
    thread pool inserts them. One lock covers the collection, the insert and the modify sections; the caller that starts
    the insert leaves the lock to it. */
module AutoInsert {

  import Arith
  import opened Common
  import opened SlotMemory

  datatype Config = Config(heuristic: bool, minWait: nat, minSize: nat, sentinel: int)

  /** What a lookup hands over: its keys, their rows as cells of `stride` each, which keys were hits, and what the
      heuristic answers. A buffer that has to grow starts with unknown contents. */
  datatype Call = Call(keys: seq<int>, data: seq<int>, stride: nat, hits: Option<seq<bool>>, needed: bool, junk: int)

  predicate CallOk(call: Call) {
    && |call.data| >= |call.keys| * call.stride
    && (call.hits.Some? ==> |call.hits.value| >= |call.keys|)
  }

  datatype Handler = Handler(locked: bool, freq: int, collected: nat, stride: nat, keys: seq<int>, data: seq<int>)

  datatype Outcome = Unlocked | Launched | Threw

  /** Grows a buffer that is too small; what it held is lost. */
  function GetPtr(buffer: seq<int>, size: nat, junk: int): (r: seq<int>)
    ensures |r| >= size
  {
    if size > |buffer| then seq(size, _ => junk) else buffer
  }

  /** The first `n` keys with the missed ones replaced by the sentinel. */
  function Masked(c: Config, call: Call, n: nat): (r: seq<int>)
    requires n <= |call.keys| && CallOk(call)
    ensures |r| == n
  {
    seq(n, j requires 0 <= j < n => MaskedKey(c, call, j))
  }

  function MaskedKey(c: Config, call: Call, j: nat): int
    requires j < |call.keys| && CallOk(call)
  {
    if call.hits.Some? && !call.hits.value[j] then c.sentinel else call.keys[j]
  }

  function Min(a: nat, b: nat): nat {
    if a <= b then a else b
  }

  function Max(a: nat, b: nat): nat {
    if a >= b then a else b
  }

  function Total(c: Config, h: Handler, call: Call): nat {
    if h.collected == 0 then Max(|call.keys|, c.minSize) else c.minSize
  }

  function PartSize(c: Config, h: Handler, call: Call): nat
    requires h.collected <= Total(c, h, call)
  {
    Min(|call.keys|, Total(c, h, call) - h.collected)
  }

  function Collect(c: Config, h: Handler, call: Call): Handler
    requires CallOk(call) && h.collected <= Total(c, h, call) && h.stride == call.stride
  {
    var total, part := Total(c, h, call), PartSize(c, h, call);
    Arith.MulMono(h.collected + part, total, h.stride);
    Arith.MulMono(part, |call.keys|, h.stride);
    var keys, data := GetPtr(h.keys, total, call.junk), GetPtr(h.data, Cells(total, h.stride), call.junk);
    h.(keys := Splice(keys, h.collected, Masked(c, call, part)),
       data := Splice(data, Cells(h.collected, h.stride), call.data[..Cells(part, h.stride)]),
       collected := h.collected + part)
  }

  function Cells(n: nat, stride: nat): nat {
    n * stride
  }

  /** What a caller does between taking the lock and giving it up. */
  function Work(c: Config, h: Handler, call: Call): (Handler, Outcome)
    requires CallOk(call) && (h.collected > 0 ==> h.collected <= c.minSize)
  {
    if h.collected > 0 && call.stride != h.stride then (h, Threw)
    else
      var freq := if h.collected > 0 then h.freq else h.freq - 1;
      var h1 := if h.collected > 0 then Collect(c, h, call)
                else if freq < 0 && call.needed then Collect(c, h.(stride := call.stride), call)
                else h;
      var h2 := h1.(freq := if freq < 0 then 0 else freq);
      if h2.collected > 0 && h2.collected >= c.minSize then (h2, Launched) else (h2.(locked := false), Unlocked)
  }

  // ---------------------------------------------------------------------------------------------
  // Callers, inserts and modify sections as a step system.

  /** `Stuck` is a caller that threw while it held the lock. */
  datatype Holder = Nobody | Caller(id: nat) | Task | Modifier(id: nat) | Stuck

  /** What one call contributed to the collection. */
  datatype Piece = Piece(keys: seq<int>, data: seq<int>)

  datatype Batch = Batch(keys: seq<int>, data: seq<int>, stride: nat)

  /** `pieces` lists the contributions since the collection was last reset, `batches` the batches that were inserted,
      and `since` counts the calls that took the lock since the last insert. */
  datatype State = State(h: Handler, holder: Holder, pieces: seq<Piece>, batches: seq<Batch>, acquired: nat,
                         released: nat, since: nat)

  datatype Event =
    | TryFail(id: nat)
    | Enter(id: nat)
    | DoWork(id: nat, call: Call)
    | RunTask
    | LockModify(id: nat)
    | UnlockModify(id: nat)
    | SkipModify

  predicate Enabled(c: Config, s: State, e: Event) {
    match e
    case TryFail(_) => !c.heuristic || s.h.locked
    case Enter(_) => c.heuristic && !s.h.locked
    case DoWork(id, call) => s.holder == Caller(id) && CallOk(call)
    case RunTask => s.holder == Task
    case LockModify(_) => c.heuristic && !s.h.locked
    case UnlockModify(id) => s.holder == Modifier(id)
    case SkipModify => !c.heuristic
  }

  predicate Collects(h: Handler, call: Call) {
    if h.collected > 0 then call.stride == h.stride else h.freq - 1 < 0 && call.needed
  }

  function NextPieces(c: Config, s: State, call: Call): seq<Piece>
    requires CallOk(call) && CollectedOk(c, s) && s.holder != Task
  {
    if !Collects(s.h, call) then s.pieces
    else
      var part := PartSize(c, s.h, call);
      Arith.MulMono(part, |call.keys|, call.stride);
      (if s.h.collected == 0 then [] else s.pieces)
      + [Piece(Masked(c, call, part), call.data[..Cells(part, call.stride)])]
  }

  function AfterWork(c: Config, s: State, call: Call): State
    requires CallOk(call) && CollectedOk(c, s) && s.holder != Task
  {
    var (h, outcome) := Work(c, s.h, call);
    var s' := s.(h := h, pieces := NextPieces(c, s, call));
    match outcome
    case Unlocked => s'.(holder := Nobody, released := s.released + 1)
    case Launched => s'.(holder := Task)
    case Threw => s'.(holder := Stuck)
  }

  function Next(c: Config, s: State, e: Event): State
    requires Inv(c, s) && Enabled(c, s, e)
  {
    match e
    case TryFail(_) => s
    case Enter(id) =>
      s.(h := s.h.(locked := true), holder := Caller(id), acquired := s.acquired + 1, since := s.since + 1)
    case DoWork(id, call) => AfterWork(c, s, call)
    case RunTask =>
      s.(h := s.h.(freq := c.minWait, collected := 0, locked := false), holder := Nobody, pieces := [],
         batches := s.batches + [InsertedBatch(s.h)], released := s.released + 1, since := 0)
    case LockModify(id) => s.(h := s.h.(locked := true), holder := Modifier(id), acquired := s.acquired + 1)
    case UnlockModify(id) =>
      s.(h := s.h.(collected := 0, locked := false), holder := Nobody, pieces := [], released := s.released + 1)
    case SkipModify => s
  }

  /** What an insert takes: the collected part of the buffers. */
  function InsertedBatch(h: Handler): Batch
    requires h.collected <= |h.keys| && Cells(h.collected, h.stride) <= |h.data|
  {
    Batch(h.keys[..h.collected], h.data[..Cells(h.collected, h.stride)], h.stride)
  }

  const INITIAL := State(Handler(false, 0, 0, 0, [], []), Nobody, [], [], 0, 0, 0)

  function ConcatKeys(pieces: seq<Piece>): seq<int> {
    if pieces == [] then [] else ConcatKeys(pieces[..|pieces| - 1]) + pieces[|pieces| - 1].keys
  }

  function ConcatData(pieces: seq<Piece>): seq<int> {
    if pieces == [] then [] else ConcatData(pieces[..|pieces| - 1]) + pieces[|pieces| - 1].data
  }

  // ---------------------------------------------------------------------------------------------
  // The invariant.

  predicate LockOk(s: State) {
    && (s.h.locked <==> s.holder != Nobody)
    && s.acquired == s.released + if s.h.locked then 1 else 0
  }

  /** Unless it is being inserted a collection is short of the minimum size, and its buffers are large enough to
      complete it. */
  predicate CollectedOk(c: Config, s: State) {
    if s.holder == Task then s.h.collected > 0 && s.h.collected >= c.minSize
    else s.h.collected > 0 ==>
      s.h.collected < c.minSize <= |s.h.keys| && Cells(c.minSize, s.h.stride) <= |s.h.data|
  }

  /** The buffers start with the pieces. */
  predicate StoredOk(s: State) {
    && s.h.collected <= |s.h.keys| && Cells(s.h.collected, s.h.stride) <= |s.h.data|
    && s.h.keys[..s.h.collected] == ConcatKeys(s.pieces)
    && s.h.data[..Cells(s.h.collected, s.h.stride)] == ConcatData(s.pieces)
  }

  predicate WaitOk(c: Config, s: State) {
    && s.h.freq >= 0 && (s.holder.Caller? ==> s.since >= 1)
    && (s.batches != [] ==> s.h.freq + s.since - (if s.holder.Caller? then 1 else 0) >= c.minWait)
  }

  predicate Inv(c: Config, s: State) {
    LockOk(s) && CollectedOk(c, s) && StoredOk(s) && WaitOk(c, s)
  }

  /** A call appends its part to the collected prefix of both buffers, whether or not they had to grow: they only grow
      while nothing is collected. */
  lemma CollectAppends(c: Config, h: Handler, call: Call)
    requires CallOk(call) && h.stride == call.stride
    requires h.collected <= |h.keys| && Cells(h.collected, h.stride) <= |h.data|
    requires h.collected > 0 ==> h.collected <= c.minSize <= |h.keys| && Cells(c.minSize, h.stride) <= |h.data|
    ensures var part, h' := PartSize(c, h, call), Collect(c, h, call);
            && Cells(part, call.stride) <= |call.data|
            && h'.collected <= |h'.keys| && Cells(h'.collected, h'.stride) <= |h'.data|
            && h'.keys[..h'.collected] == h.keys[..h.collected] + Masked(c, call, part)
            && h'.data[..Cells(h'.collected, h'.stride)] ==
               h.data[..Cells(h.collected, h.stride)] + call.data[..Cells(part, call.stride)]
            && c.minSize <= |h'.keys| && Cells(c.minSize, h'.stride) <= |h'.data|
            && (h.collected > 0 ==> |h'.keys| == |h.keys| && |h'.data| == |h.data|)
  {
    var total, part, h' := Total(c, h, call), PartSize(c, h, call), Collect(c, h, call);
    CollectCells(c, h, call);
    SplicePrefix(GetPtr(h.keys, total, call.junk), h.collected, Masked(c, call, part));
    SplicePrefix(GetPtr(h.data, Cells(total, h.stride), call.junk), Cells(h.collected, h.stride),
                 call.data[..Cells(part, h.stride)]);
    if h.collected == 0 {
      assert h'.keys[..h'.collected] == [] + Masked(c, call, part);
    }
  }

  /** A call that starts a collection gives all its keys; one that continues it gives all of them unless the collection
      reaches the minimum size, which it never exceeds. */
  lemma TakesAll(c: Config, h: Handler, call: Call)
    requires CallOk(call) && h.stride == call.stride && (h.collected > 0 ==> h.collected <= c.minSize)
    ensures var h' := Collect(c, h, call);
            if h.collected == 0 then h'.collected == |call.keys|
            else h'.collected <= c.minSize && (h'.collected == h.collected + |call.keys| || h'.collected == c.minSize)
  {
  }

  /** The cell counts behind a call's part. */
  lemma CollectCells(c: Config, h: Handler, call: Call)
    requires CallOk(call) && h.collected <= Total(c, h, call) && h.stride == call.stride
    ensures var total, part := Total(c, h, call), PartSize(c, h, call);
            && Cells(h.collected + part, h.stride) == Cells(h.collected, h.stride) + Cells(part, h.stride)
            && Cells(h.collected + part, h.stride) <= Cells(total, h.stride)
            && Cells(part, h.stride) <= |call.data|
            && Cells(c.minSize, h.stride) <= Cells(total, h.stride)
            && Cells(0, h.stride) == 0
  {
    var total, part := Total(c, h, call), PartSize(c, h, call);
    Arith.MulMono(h.collected + part, total, h.stride);
    Arith.MulMono(part, |call.keys|, h.stride);
    Arith.MulMono(c.minSize, total, h.stride);
  }

  lemma SplicePrefix(xs: seq<int>, at: nat, cells: seq<int>)
    requires at + |cells| <= |xs|
    ensures Splice(xs, at, cells)[..at + |cells|] == xs[..at] + cells
  {
  }

  lemma ConcatPush(pieces: seq<Piece>, p: Piece)
    ensures ConcatKeys(pieces + [p]) == ConcatKeys(pieces) + p.keys
    ensures ConcatData(pieces + [p]) == ConcatData(pieces) + p.data
  {
    assert (pieces + [p])[..|pieces|] == pieces;
  }

  /** A call that collects leaves the buffers as `Collect` does. */
  lemma WorkCollects(c: Config, s: State, call: Call)
    requires Inv(c, s) && s.holder.Caller? && CallOk(call) && Collects(s.h, call)
    ensures var h := Collect(c, s.h.(stride := call.stride), call);
            AfterWork(c, s, call).h ==
              h.(freq := AfterWork(c, s, call).h.freq, locked := AfterWork(c, s, call).h.locked)
    ensures AfterWork(c, s, call).holder == if AfterWork(c, s, call).h.collected > 0 &&
                                               AfterWork(c, s, call).h.collected >= c.minSize then Task else Nobody
  {
    assert s.h.collected > 0 ==> s.h.(stride := call.stride) == s.h;
  }

  lemma WorkStored(c: Config, s: State, call: Call)
    requires Inv(c, s) && s.holder.Caller? && CallOk(call)
    ensures StoredOk(AfterWork(c, s, call)) && CollectedOk(c, AfterWork(c, s, call))
  {
    if Collects(s.h, call) {
      var h := s.h.(stride := call.stride);
      var before := if s.h.collected == 0 then [] else s.pieces;
      WorkCollects(c, s, call);
      assert Cells(0, call.stride) == 0;
      CollectAppends(c, h, call);
      var part := PartSize(c, h, call);
      var piece := Piece(Masked(c, call, part), call.data[..Cells(part, call.stride)]);
      ConcatPush(before, piece);
      StoredAfter(s, h, Collect(c, h, call), before, piece, AfterWork(c, s, call));
    }
  }

  lemma StoredAfter(s: State, h: Handler, h': Handler, before: seq<Piece>, piece: Piece, s': State)
    requires StoredOk(s) && h == s.h.(stride := h.stride) && Cells(h.collected, h.stride) <= |h.data|
    requires if h.collected == 0 then before == [] else before == s.pieces && h.stride == s.h.stride
    requires h'.collected <= |h'.keys| && Cells(h'.collected, h'.stride) <= |h'.data|
    requires Cells(0, h.stride) == 0
    requires h'.keys[..h'.collected] == h.keys[..h.collected] + piece.keys
    requires h'.data[..Cells(h'.collected, h'.stride)] == h.data[..Cells(h.collected, h.stride)] + piece.data
    requires ConcatKeys(before + [piece]) == ConcatKeys(before) + piece.keys
    requires ConcatData(before + [piece]) == ConcatData(before) + piece.data
    requires s'.pieces == before + [piece] && s'.h == h'.(freq := s'.h.freq, locked := s'.h.locked)
    ensures StoredOk(s')
  {
  }

  lemma StepInv(c: Config, s: State, e: Event)
    requires Inv(c, s) && Enabled(c, s, e)
    ensures Inv(c, Next(c, s, e))
  {
    if e.DoWork? {
      WorkStored(c, s, e.call);
    }
  }

  // ---------------------------------------------------------------------------------------------
  // Whole runs.

  /** A step is defined on consistent states; that a run meets no others is `RunInv`. */
  ghost predicate IsStep(c: Config, s: State, e: Event, s': State) {
    Inv(c, s) ==> Enabled(c, s, e) && s' == Next(c, s, e)
  }

  ghost predicate IsRun(c: Config, ss: seq<State>, es: seq<Event>) {
    && |ss| == |es| + 1 && ss[0] == INITIAL
    && forall i :: 0 <= i < |es| ==> IsStep(c, ss[i], es[i], ss[i + 1])
  }

  /** Every reachable state: the lock flag is set exactly while someone holds it, every acquisition but a current one
      has been released, and the buffers hold the collection. */
  lemma {:induction false} RunInv(c: Config, ss: seq<State>, es: seq<Event>, n: nat)
    requires IsRun(c, ss, es) && n <= |es|
    ensures Inv(c, ss[n])
  {
    if n > 0 {
      RunInv(c, ss, es, n - 1);
      assert IsStep(c, ss[n - 1], es[n - 1], ss[n]);
      StepInv(c, ss[n - 1], es[n - 1]);
    }
  }

  /** An inserted batch is exactly the pieces collected since the last reset, and at least the minimum size. */
  lemma BatchIsCollection(c: Config, ss: seq<State>, es: seq<Event>, n: nat)
    requires IsRun(c, ss, es) && n < |es| && es[n] == RunTask
    ensures ss[n + 1].batches ==
            ss[n].batches + [Batch(ConcatKeys(ss[n].pieces), ConcatData(ss[n].pieces), ss[n].h.stride)]
    ensures |ConcatKeys(ss[n].pieces)| >= c.minSize && ConcatKeys(ss[n].pieces) != []
  {
    RunInv(c, ss, es, n);
    assert IsStep(c, ss[n], es[n], ss[n + 1]);
  }

  /** The buffers are not reallocated while a collection is in progress. */
  lemma NoReallocation(c: Config, ss: seq<State>, es: seq<Event>, n: nat)
    requires IsRun(c, ss, es) && n < |es| && ss[n].h.collected > 0
    ensures |ss[n + 1].h.keys| == |ss[n].h.keys| && |ss[n + 1].h.data| == |ss[n].h.data|
    ensures es[n].DoWork? ==>
              GetPtr(ss[n].h.keys, Total(c, ss[n].h, es[n].call), es[n].call.junk) == ss[n].h.keys &&
              GetPtr(ss[n].h.data, Cells(Total(c, ss[n].h, es[n].call), ss[n].h.stride), es[n].call.junk) ==
                ss[n].h.data
  {
    RunInv(c, ss, es, n);
    assert IsStep(c, ss[n], es[n], ss[n + 1]);
    if es[n].DoWork? && Collects(ss[n].h, es[n].call) {
      CollectAppends(c, ss[n].h, es[n].call);
    }
  }

  /** Between an insert and the call that starts the next collection at least `minWait` other calls take the lock. */
  lemma WaitsBetween(c: Config, ss: seq<State>, es: seq<Event>, n: nat)
    requires IsRun(c, ss, es) && n < |es| && es[n].DoWork? && ss[n].batches != []
    requires ss[n].h.collected == 0 && Collects(ss[n].h, es[n].call)
    ensures ss[n].since - 1 >= c.minWait
  {
    RunInv(c, ss, es, n);
    assert IsStep(c, ss[n], es[n], ss[n + 1]);
  }

  /** A call keeps the lock for ever exactly if it adds to a collection of a different stride. */
  lemma StuckIff(c: Config, s: State, id: nat, call: Call)
    requires Inv(c, s) && Enabled(c, s, DoWork(id, call))
    ensures Next(c, s, DoWork(id, call)).holder == Stuck <==> s.h.collected > 0 && call.stride != s.h.stride
  {
  }

  lemma {:induction false} StuckForEver(c: Config, ss: seq<State>, es: seq<Event>, n: nat, m: nat)
    requires IsRun(c, ss, es) && n <= m <= |es| && ss[n].holder == Stuck
    ensures ss[m] == ss[n] && ss[n].h.locked
    decreases m - n
  {
    RunInv(c, ss, es, n);
    if n < m {
      StuckForEver(c, ss, es, n, m - 1);
      RunInv(c, ss, es, m - 1);
      assert IsStep(c, ss[m - 1], es[m - 1], ss[m]);
    }
  }

  /** It does happen: a call with one key of one cell starts a collection, and the next call has rows of two cells. */
  lemma StuckExample() returns (c: Config, ss: seq<State>, es: seq<Event>)
    ensures IsRun(c, ss, es) && ss[|es|].holder == Stuck
  {
    c := Config(true, 0, 2, -1);
    var first, second := Call([7], [1], 1, None, true, 0), Call([8], [1, 2], 2, None, true, 0);
    es := [Enter(0), DoWork(0, first), Enter(1), DoWork(1, second)];
    var s0 := INITIAL;
    var s1 := Next(c, s0, es[0]);
    StepInv(c, s0, es[0]);
    assert CallOk(first) && CallOk(second);
    var s2 := Next(c, s1, es[1]);
    StepInv(c, s1, es[1]);
    assert s2.holder == Nobody && s2.h.collected == 1 && s2.h.stride == 1 && !s2.h.locked;
    var s3 := Next(c, s2, es[2]);
    StepInv(c, s2, es[2]);
    StuckIff(c, s3, 1, second);
    ss := [s0, s1, s2, s3, Next(c, s3, es[3])];
  }

  predicate StrideIs(e: Event, stride: nat) {
    e.DoWork? ==> e.call.stride == stride
  }

  /** With a fixed stride no caller keeps the lock for ever. */
  lemma {:induction false} FixedStride(c: Config, ss: seq<State>, es: seq<Event>, n: nat, stride: nat)
    requires IsRun(c, ss, es) && n <= |es| && forall i :: 0 <= i < |es| ==> StrideIs(es[i], stride)
    ensures ss[n].holder != Stuck && (ss[n].h.collected > 0 ==> ss[n].h.stride == stride)
  {
    if n > 0 {
      FixedStride(c, ss, es, n - 1, stride);
      RunInv(c, ss, es, n - 1);
      assert IsStep(c, ss[n - 1], es[n - 1], ss[n]);
      assert StrideIs(es[n - 1], stride);
    }
  }

  /** Whoever holds the lock can take the step that leads to its release. */
  lemma HolderCanMove(c: Config, s: State, call: Call)
    requires Inv(c, s) && s.h.locked && s.holder != Stuck && CallOk(call)
    ensures Enabled(c, s, match s.holder
                          case Caller(id) => DoWork(id, call)
                          case Modifier(id) => UnlockModify(id)
                          case _ => RunTask)
  {
  }

  /** Without a heuristic the handler does nothing. */
  lemma {:induction false} NoHeuristic(c: Config, ss: seq<State>, es: seq<Event>, n: nat)
    requires IsRun(c, ss, es) && !c.heuristic && n <= |es|
    ensures ss[n] == INITIAL
  {
    if n > 0 {
      NoHeuristic(c, ss, es, n - 1);
      RunInv(c, ss, es, n - 1);
      assert IsStep(c, ss[n - 1], es[n - 1], ss[n]);
    }
  }

  // ---------------------------------------------------------------------------------------------
  // The handler itself.

  class AutoInsertHandler {
    const c: Config
    var locked: bool
    var freq: int
    var collected: nat
    var stride: nat
    var keys: seq<int>
    var data: seq<int>

    constructor (c: Config)
      ensures this.c == c && Fields() == INITIAL.h
    {
      this.c := c;
      locked, freq, collected, stride, keys, data := false, 0, 0, 0, [], [];
    }

    ghost function Fields(): Handler
      reads this
    {
      Handler(locked, freq, collected, stride, keys, data)
    }

    method TryLock() returns (ok: bool)
      modifies this`locked
      ensures ok == !old(locked) && locked
    {
      ok := !locked;
      locked := true;
    }

    /** A lookup's call. Without a heuristic, or while someone else holds the lock, it does nothing. */
    method Offer(call: Call) returns (outcome: Option<Outcome>)
      requires CallOk(call) && (collected > 0 ==> collected <= c.minSize)
      modifies this
      ensures outcome.Some? <==> c.heuristic && !old(locked)
      ensures outcome.None? ==> Fields() == old(Fields())
      ensures outcome.Some? ==> (Fields(), outcome.value) == Work(c, old(Fields()).(locked := true), call)
    {
      if !c.heuristic {
        return None;
      }
      var ok := TryLock();
      if !ok {
        return None;
      }
      if collected > 0 {
        if call.stride != stride {
          return Some(Threw);
        }
        CollectKeysAndData(call);
      } else {
        freq := freq - 1;
        if freq < 0 && call.needed {
          stride := call.stride;
          CollectKeysAndData(call);
        }
      }
      if freq < 0 {
        freq := 0;
      }
      if collected > 0 && collected >= c.minSize {
        outcome := Some(Launched);
      } else {
        locked := false;
        outcome := Some(Unlocked);
      }
    }

    /** Copies keys and rows behind what is collected, then overwrites the missed keys with the sentinel. */
    method CollectKeysAndData(call: Call)
      requires CallOk(call) && stride == call.stride && (collected > 0 ==> collected <= c.minSize)
      modifies this
      ensures Fields() == Collect(c, old(Fields()), call)
    {
      ghost var h := Fields();
      var total := if collected == 0 then Max(|call.keys|, c.minSize) else c.minSize;
      var part := Min(|call.keys|, total - collected);
      CollectCells(c, h, call);
      CollectKeys(call, total, part);
      data := Splice(GetPtr(data, Cells(total, stride), call.junk), Cells(collected, stride),
                     call.data[..Cells(part, stride)]);
      collected := collected + part;
    }

    method CollectKeys(call: Call, total: nat, part: nat)
      requires CallOk(call) && part <= |call.keys| && collected + part <= total
      modifies this`keys
      ensures keys == Splice(GetPtr(old(keys), total, call.junk), collected, Masked(c, call, part))
    {
      ghost var buffer := GetPtr(keys, total, call.junk);
      keys := Splice(GetPtr(keys, total, call.junk), collected, call.keys[..part]);
      if call.hits.Some? {
        for j := 0 to part
          invariant keys == Splice(buffer, collected, Partly(call, j, part))
        {
          assert Partly(call, j + 1, part) == Partly(call, j, part)[j := MaskedKey(c, call, j)];
          if !call.hits.value[j] {
            keys := keys[collected + j := c.sentinel];
          }
        }
        assert Partly(call, part, part) == Masked(c, call, part);
      } else {
        assert call.keys[..part] == Masked(c, call, part);
      }
    }

    /** The keys after the first `j` have been looked at. */
    ghost function Partly(call: Call, j: nat, part: nat): (r: seq<int>)
      requires CallOk(call) && j <= part <= |call.keys|
      ensures |r| == part
    {
      Masked(c, call, j) + call.keys[j..part]
    }

    /** The asynchronous insert: puts the collection into the table, then resets the handler and gives up the lock. */
    method FinishInsert() returns (batch: Batch)
      requires locked && collected <= |keys| && Cells(collected, stride) <= |data|
      modifies this
      ensures batch == InsertedBatch(old(Fields()))
      ensures Fields() == old(Fields()).(freq := c.minWait, collected := 0, locked := false)
    {
      batch := InsertedBatch(Handler(locked, freq, collected, stride, keys, data));
      freq, collected := c.minWait, 0;
      locked := false;
    }

    /** Ends a modify section; what was collected may be out of date and is dropped. */
    method EndModify()
      modifies this
      ensures Fields() == if c.heuristic then old(Fields()).(collected := 0, locked := false) else old(Fields())
    {
      if c.heuristic {
        collected := 0;
        locked := false;
      }
    }
  }
}
