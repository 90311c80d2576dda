/** The parallel lookup of the partitioned host tables. One task serves one partition and a range of mask words; it
    loads a word, probes the positions whose bit is clear, and joins the word with the hits it found, while tasks of
    other partitions work on the same words. Every interleaving is a sequence of events.

    A word is given by its set of bit positions (module FindWords does the same on integers), the keys by rows of
    one word each: `keys[w][j]` is the key of bit `j` of word `w`, and the last row may be short. The partitions are
    locked for reading during a lookup, so their maps do not change. */
module ParallelFind {

  import opened Common

  type Row = seq<real>

  /** `parts[t]` is the partition of task `t` and `words[t]` the words it visits, in order. `owner` says which task
      visits a word for a partition, and at which of its steps. */
  datatype Plan = Plan(parts: seq<nat>, words: seq<seq<nat>>, owner: map<(nat, nat), (nat, nat)>)

  /** Every (partition, word) pair is visited by exactly one step of one task. */
  ghost predicate PlanOk(plan: Plan, numParts: nat, numWords: nat) {
    && |plan.parts| == |plan.words|
    && (forall t, i {:trigger plan.words[t][i]} :: 0 <= t < |plan.words| && 0 <= i < |plan.words[t]| ==>
          plan.words[t][i] < numWords && VisitOk(plan, numParts, t, i))
    && (forall p, w :: 0 <= p < numParts && 0 <= w < numWords ==> OwnerOk(plan, p, w))
  }

  ghost predicate VisitOk(plan: Plan, numParts: nat, t: nat, i: nat)
    requires |plan.parts| == |plan.words| && t < |plan.words| && i < |plan.words[t]|
  {
    var p, w := plan.parts[t], plan.words[t][i];
    p < numParts && (p, w) in plan.owner && plan.owner[(p, w)] == (t, i)
  }

  ghost predicate OwnerOk(plan: Plan, p: nat, w: nat)
    requires |plan.parts| == |plan.words|
  {
    (p, w) in plan.owner &&
    var (t, i) := plan.owner[(p, w)];
    0 <= t < |plan.words| && 0 <= i < |plan.words[t]| && plan.parts[t] == p && plan.words[t][i] == w
  }

  datatype Copying = NoValues | Direct | Delayed

  datatype Problem = Problem(
    keys: seq<seq<int>>,
    partOf: int -> nat,
    tables: seq<map<int, Row>>,
    mask: seq<set<nat>>,
    values: seq<seq<Row>>,
    copying: Copying,
    plan: Plan)

  ghost predicate ProblemOk(pb: Problem) {
    && PlanOk(pb.plan, |pb.tables|, |pb.keys|)
    && (forall w: nat, j: nat :: InWord(pb, w, j) ==> PartAt(pb, w, j) < |pb.tables|)
    && |pb.mask| == |pb.keys| && |pb.values| == |pb.keys|
    && (forall w :: 0 <= w < |pb.keys| ==> |pb.values[w]| == |pb.keys[w]|)
  }

  predicate InWord(pb: Problem, w: nat, j: nat) {
    w < |pb.keys| && j < |pb.keys[w]|
  }

  function PartAt(pb: Problem, w: nat, j: nat): nat
    requires InWord(pb, w, j)
  {
    pb.partOf(pb.keys[w][j])
  }

  /** What the table of partition `p` holds for the key at a position. */
  function RowAt(pb: Problem, p: nat, w: nat, j: nat): Option<Row>
    requires InWord(pb, w, j)
  {
    if p < |pb.tables| && pb.keys[w][j] in pb.tables[p] then Some(pb.tables[p][pb.keys[w][j]]) else None
  }

  /** A task of partition `p` turns the bit at this position on. */
  predicate Finds(pb: Problem, p: nat, w: nat, j: nat) {
    InWord(pb, w, j) && PartAt(pb, w, j) == p && RowAt(pb, p, w, j).Some?
  }

  /** The key at this position is resident. */
  predicate IsHit(pb: Problem, w: nat, j: nat) {
    InWord(pb, w, j) && Finds(pb, PartAt(pb, w, j), w, j)
  }

  /** `step` counts the words joined so far; inside a word, `loaded` is what was read, `todo` the positions still to
      probe and `mask` the local word. `delayed` is the position of a copy that is one step behind. */
  datatype Task = Task(
    step: nat,
    inWord: bool,
    loaded: set<nat>,
    todo: set<nat>,
    mask: set<nat>,
    hits: int,
    delayed: Option<(nat, nat)>,
    done: bool)

  datatype State = State(mask: seq<set<nat>>, values: seq<seq<Row>>, tasks: seq<Task>, total: int)

  datatype Event = Load(t: nat) | Probe(t: nat, j: nat) | Join(t: nat) | Finish(t: nat)

  function CurrentWord(pb: Problem, s: State, t: nat): nat
    requires t < |s.tasks| == |pb.plan.words| && s.tasks[t].step < |pb.plan.words[t]|
  {
    pb.plan.words[t][s.tasks[t].step]
  }

  ghost predicate Enabled(pb: Problem, s: State, e: Event) {
    && e.t < |s.tasks| == |pb.plan.words| == |pb.plan.parts| && !s.tasks[e.t].done
    && var k := s.tasks[e.t];
       match e
       case Load(t) => !k.inWord && k.step < |pb.plan.words[t]| && CurrentWord(pb, s, t) < |s.mask|
       case Probe(t, j) =>
         k.inWord && k.step < |pb.plan.words[t]| && j in k.todo && (forall x :: x in k.todo ==> j <= x) &&
         InWord(pb, CurrentWord(pb, s, t), j)
       case Join(t) => k.inWord && k.step < |pb.plan.words[t]| && k.todo == {} && CurrentWord(pb, s, t) < |s.mask|
       case Finish(t) => !k.inWord && k.step == |pb.plan.words[t]|
  }

  predicate SameShape(a: seq<seq<Row>>, b: seq<seq<Row>>) {
    |a| == |b| && forall w :: 0 <= w < |b| ==> |a[w]| == |b[w]|
  }

  /** `std::copy_n` of the row found at a position. */
  ghost function Copied(pb: Problem, values: seq<seq<Row>>, p: nat, at: (nat, nat)): (r: seq<seq<Row>>)
    ensures SameShape(r, values)
  {
    var (w, j) := at;
    if w < |values| && j < |values[w]| && InWord(pb, w, j) && RowAt(pb, p, w, j).Some?
    then values[w := values[w][j := RowAt(pb, p, w, j).value]] else values
  }

  /** Completes the copy that is one step behind. */
  ghost function Flushed(pb: Problem, values: seq<seq<Row>>, p: nat, delayed: Option<(nat, nat)>): (r: seq<seq<Row>>)
    ensures SameShape(r, values)
  {
    if delayed.Some? then Copied(pb, values, p, delayed.value) else values
  }

  /** The positions of a word that a load leaves to probe: bit clear and within the keys. */
  ghost function ToProbe(pb: Problem, w: nat, loaded: set<nat>): set<nat>
    requires w < |pb.keys|
  {
    set j: nat | j < |pb.keys[w]| && j !in loaded
  }

  ghost function Apply(pb: Problem, s: State, e: Event): State
    requires ProblemOk(pb) && Enabled(pb, s, e)
  {
    var k, p := s.tasks[e.t], pb.plan.parts[e.t];
    match e
    case Load(t) =>
      var w := CurrentWord(pb, s, t);
      s.(tasks := s.tasks[t := k.(inWord := true, loaded := s.mask[w], todo := ToProbe(pb, w, s.mask[w]),
                                  mask := s.mask[w], hits := k.hits - |s.mask[w]|)])
    case Probe(t, j) =>
      var w := CurrentWord(pb, s, t);
      if !Finds(pb, p, w, j) then s.(tasks := s.tasks[t := k.(todo := k.todo - {j})])
      else
        var k' := k.(todo := k.todo - {j}, mask := k.mask + {j});
        if pb.copying.NoValues? then s.(tasks := s.tasks[t := k'])
        else if pb.copying.Direct? then s.(tasks := s.tasks[t := k'], values := Copied(pb, s.values, p, (w, j)))
        else s.(tasks := s.tasks[t := k'.(delayed := Some((w, j)))], values := Flushed(pb, s.values, p, k.delayed))
    case Join(t) =>
      var w := CurrentWord(pb, s, t);
      s.(mask := s.mask[w := s.mask[w] + k.mask],
         tasks := s.tasks[t := k.(inWord := false, step := k.step + 1, hits := k.hits + |k.mask|)])
    case Finish(t) =>
      s.(values := Flushed(pb, s.values, p, k.delayed), total := s.total + k.hits,
         tasks := s.tasks[t := k.(done := true, delayed := None)])
  }

  ghost predicate Initial(pb: Problem, s: State) {
    && s.mask == pb.mask && s.values == pb.values && s.total == 0 && |s.tasks| == |pb.plan.words|
    && forall t :: 0 <= t < |s.tasks| ==> s.tasks[t] == Task(0, false, {}, {}, {}, 0, None, false)
  }

  /** `ss` lists the states of a run in which the events `es` happen in order. */
  ghost predicate IsRun(pb: Problem, ss: seq<State>, es: seq<Event>) {
    && ProblemOk(pb) && |ss| == |es| + 1 && Initial(pb, ss[0])
    && forall i :: 0 <= i < |es| ==> Enabled(pb, ss[i], es[i]) && ss[i + 1] == Apply(pb, ss[i], es[i])
  }

  // ---------------------------------------------------------------------------------------------
  // The invariant.

  /** The pair (partition, word) has been joined. */
  ghost predicate Joined(pb: Problem, s: State, p: nat, w: nat) {
    |pb.plan.parts| == |pb.plan.words| == |s.tasks| && OwnerOk(pb.plan, p, w) &&
    var (t, i) := pb.plan.owner[(p, w)];
    i < s.tasks[t].step
  }

  /** A bit is on exactly if it was on before or its key was found by a task that has joined the word. */
  ghost predicate MaskOk(pb: Problem, s: State) {
    |s.mask| == |pb.keys| == |pb.mask| &&
    forall w, j: nat :: 0 <= w < |s.mask| ==>
      (j in s.mask[w] <==> j in pb.mask[w] || (IsHit(pb, w, j) && Joined(pb, s, PartAt(pb, w, j), w)))
  }

  ghost predicate TaskOk(pb: Problem, s: State, t: nat)
    requires t < |s.tasks| == |pb.plan.words| == |pb.plan.parts|
  {
    var k, p := s.tasks[t], pb.plan.parts[t];
    && k.step <= |pb.plan.words[t]|
    && (k.inWord ==> k.step < |pb.plan.words[t]| && WordOk(pb, s, p, CurrentWord(pb, s, t), k))
    && (k.done ==> !k.inWord && k.step == |pb.plan.words[t]| && k.delayed == None)
    && (k.delayed.Some? ==> pb.copying.Delayed? && Finds(pb, p, k.delayed.value.0, k.delayed.value.1))
  }

  /** Inside word `w`: what was loaded agrees with the initial mask on this partition's positions, and the local word
      adds exactly the finds among the positions already probed. */
  ghost predicate WordOk(pb: Problem, s: State, p: nat, w: nat, k: Task) {
    && w < |s.mask| && w < |pb.keys| == |pb.mask|
    && k.loaded <= s.mask[w]
    && (forall j: nat :: Finds(pb, p, w, j) ==> (j in k.loaded <==> j in pb.mask[w]))
    && (forall j :: j in k.todo ==> j < |pb.keys[w]| && j !in k.loaded && j !in k.mask)
    && (forall j: nat :: j in k.mask <==> j in k.loaded || (Finds(pb, p, w, j) && j !in k.todo))
  }

  ghost predicate TasksOk(pb: Problem, s: State) {
    && |s.tasks| == |pb.plan.words| == |pb.plan.parts|
    && forall t :: 0 <= t < |s.tasks| ==> TaskOk(pb, s, t)
  }

  ghost predicate Inv(pb: Problem, s: State) {
    ProblemOk(pb) && MaskOk(pb, s) && TasksOk(pb, s)
  }

  lemma NotYetJoined(pb: Problem, s: State, t: nat, i: nat)
    requires Inv(pb, s) && t < |s.tasks| && i < |pb.plan.words[t]| && s.tasks[t].step <= i
    ensures !Joined(pb, s, pb.plan.parts[t], pb.plan.words[t][i])
  {
  }

  /** A load sees this partition's positions as they were at the start, whatever the other tasks did to the word. */
  lemma LoadSeesStart(pb: Problem, s: State, t: nat, j: nat)
    requires Inv(pb, s) && t < |s.tasks| && s.tasks[t].step < |pb.plan.words[t]|
    requires Finds(pb, pb.plan.parts[t], CurrentWord(pb, s, t), j)
    ensures j in s.mask[CurrentWord(pb, s, t)] <==> j in pb.mask[CurrentWord(pb, s, t)]
  {
    NotYetJoined(pb, s, t, s.tasks[t].step);
  }

  lemma LoadInv(pb: Problem, s: State, t: nat)
    requires Inv(pb, s) && Enabled(pb, s, Load(t))
    ensures Inv(pb, Apply(pb, s, Load(t)))
  {
    var s' := Apply(pb, s, Load(t));
    var w, p := CurrentWord(pb, s, t), pb.plan.parts[t];
    forall j: nat | Finds(pb, p, w, j)
      ensures j in s.mask[w] <==> j in pb.mask[w]
    {
      LoadSeesStart(pb, s, t, j);
    }
    assert TaskOk(pb, s, t);
    assert WordOk(pb, s', p, w, s'.tasks[t]);
    SameJoins(pb, s, s');
    OthersKeep(pb, s, s', t);
  }

  /** If no step count and no word changes, neither does what has been joined. */
  lemma SameJoins(pb: Problem, s: State, s': State)
    requires Inv(pb, s) && |s'.tasks| == |s.tasks| && s'.mask == s.mask
    requires forall t :: 0 <= t < |s.tasks| ==> s'.tasks[t].step == s.tasks[t].step
    ensures MaskOk(pb, s')
  {
    forall p: nat, w: nat
      ensures Joined(pb, s', p, w) == Joined(pb, s, p, w)
    {
    }
  }

  /** The other tasks do not notice a step of task `t`; words only grow. */
  lemma OthersKeep(pb: Problem, s: State, s': State, t: nat)
    requires Inv(pb, s) && t < |s.tasks| == |s'.tasks| && |s'.mask| == |s.mask|
    requires forall u :: 0 <= u < |s.tasks| && u != t ==> s'.tasks[u] == s.tasks[u]
    requires forall w :: 0 <= w < |s.mask| ==> s.mask[w] <= s'.mask[w]
    requires TaskOk(pb, s', t)
    ensures TasksOk(pb, s')
  {
    forall u | 0 <= u < |s'.tasks| && u != t
      ensures TaskOk(pb, s', u)
    {
      assert TaskOk(pb, s, u);
    }
  }

  lemma ProbeInv(pb: Problem, s: State, t: nat, j: nat)
    requires Inv(pb, s) && Enabled(pb, s, Probe(t, j))
    ensures Inv(pb, Apply(pb, s, Probe(t, j)))
  {
    var s' := Apply(pb, s, Probe(t, j));
    var w, p := CurrentWord(pb, s, t), pb.plan.parts[t];
    assert TaskOk(pb, s, t);
    assert WordOk(pb, s', p, w, s'.tasks[t]);
    SameJoins(pb, s, s');
    OthersKeep(pb, s, s', t);
  }

  lemma JoinInv(pb: Problem, s: State, t: nat)
    requires Inv(pb, s) && Enabled(pb, s, Join(t))
    ensures Inv(pb, Apply(pb, s, Join(t)))
  {
    var s' := Apply(pb, s, Join(t));
    var w, p := CurrentWord(pb, s, t), pb.plan.parts[t];
    assert TaskOk(pb, s, t);
    JoinMask(pb, s, t);
    OthersKeep(pb, s, s', t);
  }

  lemma JoinMask(pb: Problem, s: State, t: nat)
    requires Inv(pb, s) && Enabled(pb, s, Join(t)) && TaskOk(pb, s, t)
    ensures MaskOk(pb, Apply(pb, s, Join(t)))
  {
    var s' := Apply(pb, s, Join(t));
    var w, p, i := CurrentWord(pb, s, t), pb.plan.parts[t], s.tasks[t].step;
    forall q: nat, v: nat
      ensures Joined(pb, s', q, v) <==> Joined(pb, s, q, v) || (q == p && v == w)
    {
      JoinAt(pb, s, t, q, v);
    }
    forall v, j: nat | 0 <= v < |s'.mask|
      ensures j in s'.mask[v] <==> j in pb.mask[v] || (IsHit(pb, v, j) && Joined(pb, s', PartAt(pb, v, j), v))
    {
      if v == w {
        assert j in s.tasks[t].mask <==> j in s.tasks[t].loaded || Finds(pb, p, w, j);
      }
    }
  }

  lemma JoinAt(pb: Problem, s: State, t: nat, q: nat, v: nat)
    requires Inv(pb, s) && Enabled(pb, s, Join(t))
    ensures Joined(pb, Apply(pb, s, Join(t)), q, v) <==>
            Joined(pb, s, q, v) || (q == pb.plan.parts[t] && v == CurrentWord(pb, s, t))
  {
  }

  lemma FinishInv(pb: Problem, s: State, t: nat)
    requires Inv(pb, s) && Enabled(pb, s, Finish(t))
    ensures Inv(pb, Apply(pb, s, Finish(t)))
  {
    var s' := Apply(pb, s, Finish(t));
    assert TaskOk(pb, s, t);
    SameJoins(pb, s, s');
    OthersKeep(pb, s, s', t);
  }

  lemma StepInv(pb: Problem, s: State, e: Event)
    requires Inv(pb, s) && Enabled(pb, s, e)
    ensures Inv(pb, Apply(pb, s, e))
  {
    match e
    case Load(t) => LoadInv(pb, s, t);
    case Probe(t, j) => ProbeInv(pb, s, t, j);
    case Join(t) => JoinInv(pb, s, t);
    case Finish(t) => FinishInv(pb, s, t);
  }

  lemma InitialInv(pb: Problem, s: State)
    requires ProblemOk(pb) && Initial(pb, s)
    ensures Inv(pb, s)
  {
  }

  // ---------------------------------------------------------------------------------------------
  // The number of hits: what is still held locally plus the reported total is the number of bits turned on.

  function Owed(k: Task): int {
    if k.done then 0 else k.hits + if k.inWord then |k.loaded| else 0
  }

  function OwedAll(tasks: seq<Task>): int {
    if tasks == [] then 0 else OwedAll(tasks[..|tasks| - 1]) + Owed(tasks[|tasks| - 1])
  }

  function BitCount(mask: seq<set<nat>>): nat {
    if mask == [] then 0 else BitCount(mask[..|mask| - 1]) + |mask[|mask| - 1]|
  }

  lemma {:induction false} OwedChange(tasks: seq<Task>, t: nat, k: Task)
    requires t < |tasks|
    ensures OwedAll(tasks[t := k]) == OwedAll(tasks) - Owed(tasks[t]) + Owed(k)
  {
    var n := |tasks| - 1;
    if t == n {
      assert tasks[t := k][..n] == tasks[..n];
    } else {
      OwedChange(tasks[..n], t, k);
      assert tasks[t := k][..n] == tasks[..n][t := k];
    }
  }

  lemma {:induction false} BitCountChange(mask: seq<set<nat>>, w: nat, bits: set<nat>)
    requires w < |mask|
    ensures BitCount(mask[w := bits]) == BitCount(mask) - |mask[w]| + |bits|
  {
    var n := |mask| - 1;
    if w == n {
      assert mask[w := bits][..n] == mask[..n];
    } else {
      BitCountChange(mask[..n], w, bits);
      assert mask[w := bits][..n] == mask[..n][w := bits];
    }
  }

  ghost predicate Balanced(pb: Problem, s: State) {
    s.total + OwedAll(s.tasks) == BitCount(s.mask) - BitCount(pb.mask)
  }

  lemma {:induction false} NothingOwed(tasks: seq<Task>)
    requires forall t :: 0 <= t < |tasks| ==> Owed(tasks[t]) == 0
    ensures OwedAll(tasks) == 0
  {
    if tasks != [] {
      NothingOwed(tasks[..|tasks| - 1]);
    }
  }

  /** A join adds to its word exactly as many bits as it adds to its hits. */
  lemma JoinAdds(pb: Problem, s: State, t: nat)
    requires Inv(pb, s) && Enabled(pb, s, Join(t))
    ensures var k, w := s.tasks[t], CurrentWord(pb, s, t);
            |s.mask[w] + k.mask| - |s.mask[w]| == |k.mask| - |k.loaded|
  {
    var k, p, w := s.tasks[t], pb.plan.parts[t], CurrentWord(pb, s, t);
    assert TaskOk(pb, s, t) && WordOk(pb, s, p, w, k);
    forall j | j in k.mask - k.loaded
      ensures j !in s.mask[w]
    {
      LoadSeesStart(pb, s, t, j);
    }
    assert s.mask[w] + k.mask == s.mask[w] + (k.mask - k.loaded);
    assert k.mask == k.loaded + (k.mask - k.loaded);
  }

  lemma StepBalanced(pb: Problem, s: State, e: Event)
    requires Inv(pb, s) && Enabled(pb, s, e) && Balanced(pb, s)
    ensures Balanced(pb, Apply(pb, s, e))
  {
    var s', t := Apply(pb, s, e), e.t;
    OwedChange(s.tasks, t, s'.tasks[t]);
    if e.Join? {
      var w := CurrentWord(pb, s, t);
      BitCountChange(s.mask, w, s'.mask[w]);
      JoinAdds(pb, s, t);
    }
  }

  // ---------------------------------------------------------------------------------------------
  // The rows that are copied out.

  /** The owner of the position has probed it. */
  ghost predicate Probed(pb: Problem, s: State, p: nat, w: nat, j: nat) {
    |pb.plan.parts| == |pb.plan.words| == |s.tasks| && OwnerOk(pb.plan, p, w) &&
    var (t, i) := pb.plan.owner[(p, w)];
    i < s.tasks[t].step || (i == s.tasks[t].step && s.tasks[t].inWord && j !in s.tasks[t].todo)
  }

  /** The position became a hit in this run. */
  ghost predicate NewHit(pb: Problem, s: State, w: nat, j: nat)
    requires InWord(pb, w, j) && |pb.mask| == |pb.keys|
  {
    j !in pb.mask[w] && IsHit(pb, w, j) && Probed(pb, s, PartAt(pb, w, j), w, j)
  }

  ghost predicate InFlight(pb: Problem, s: State, w: nat, j: nat)
    requires InWord(pb, w, j)
  {
    |pb.plan.parts| == |pb.plan.words| == |s.tasks| && OwnerOk(pb.plan, PartAt(pb, w, j), w) &&
    s.tasks[pb.plan.owner[(PartAt(pb, w, j), w)].0].delayed == Some((w, j))
  }

  ghost predicate RowOk(pb: Problem, s: State, w: nat, j: nat)
    requires InWord(pb, w, j) && |pb.mask| == |pb.keys| == |pb.values| == |s.values|
    requires |pb.values[w]| == |s.values[w]| == |pb.keys[w]|
  {
    if NewHit(pb, s, w, j) && !pb.copying.NoValues?
    then s.values[w][j] == RowAt(pb, PartAt(pb, w, j), w, j).value || InFlight(pb, s, w, j)
    else s.values[w][j] == pb.values[w][j] && !InFlight(pb, s, w, j)
  }

  ghost predicate ValuesOk(pb: Problem, s: State)
    requires ProblemOk(pb)
  {
    && |s.values| == |pb.values|
    && (forall w :: 0 <= w < |pb.keys| ==> |s.values[w]| == |pb.keys[w]|)
    && (forall w, j :: 0 <= w < |pb.keys| && 0 <= j < |pb.keys[w]| ==> RowOk(pb, s, w, j))
    && forall t :: 0 <= t < |s.tasks| ==> DelayedOk(pb, s, t)
  }

  /** A delayed copy belongs to a new hit of its own task. */
  ghost predicate DelayedOk(pb: Problem, s: State, t: nat)
    requires ProblemOk(pb) && t < |s.tasks|
  {
    s.tasks[t].delayed.Some? ==>
      var (w, j) := s.tasks[t].delayed.value;
      0 <= w && 0 <= j && InWord(pb, w, j) && InFlight(pb, s, w, j) && NewHit(pb, s, w, j) && OwnerOf(pb, w, j) == t
  }

  ghost function OwnerOf(pb: Problem, w: nat, j: nat): (t: nat)
    requires ProblemOk(pb) && InWord(pb, w, j)
    ensures t < |pb.plan.words|
  {
    assert PartAt(pb, w, j) < |pb.tables| && OwnerOk(pb.plan, PartAt(pb, w, j), w);
    pb.plan.owner[(PartAt(pb, w, j), w)].0
  }

  lemma CopiedAt(pb: Problem, values: seq<seq<Row>>, p: nat, at: (nat, nat), v: nat, x: nat)
    requires v < |values| && x < |values[v]|
    ensures (v, x) != at ==> Copied(pb, values, p, at)[v][x] == values[v][x]
    ensures (v, x) == at && Finds(pb, p, v, x) ==> Copied(pb, values, p, at)[v][x] == RowAt(pb, p, v, x).value
  {
  }

  lemma ValuesShape(pb: Problem, s: State, e: Event)
    requires Inv(pb, s) && Enabled(pb, s, e) && ValuesOk(pb, s)
    ensures SameShape(Apply(pb, s, e).values, s.values)
  {
  }

  lemma LoadRow(pb: Problem, s: State, t: nat, v: nat, x: nat)
    requires Inv(pb, s) && Enabled(pb, s, Load(t)) && ValuesOk(pb, s) && InWord(pb, v, x)
    ensures RowOk(pb, Apply(pb, s, Load(t)), v, x)
    ensures NewHit(pb, Apply(pb, s, Load(t)), v, x) == NewHit(pb, s, v, x)
    ensures InFlight(pb, Apply(pb, s, Load(t)), v, x) == InFlight(pb, s, v, x)
  {
    assert RowOk(pb, s, v, x);
    var w := CurrentWord(pb, s, t);
    if OwnerOf(pb, v, x) == t && v == w && Finds(pb, pb.plan.parts[t], w, x) {
      LoadSeesStart(pb, s, t, x);
    }
  }

  lemma JoinRow(pb: Problem, s: State, t: nat, v: nat, x: nat)
    requires Inv(pb, s) && Enabled(pb, s, Join(t)) && ValuesOk(pb, s) && InWord(pb, v, x)
    ensures RowOk(pb, Apply(pb, s, Join(t)), v, x)
    ensures NewHit(pb, Apply(pb, s, Join(t)), v, x) == NewHit(pb, s, v, x)
    ensures InFlight(pb, Apply(pb, s, Join(t)), v, x) == InFlight(pb, s, v, x)
  {
    assert RowOk(pb, s, v, x);
  }

  lemma FinishRow(pb: Problem, s: State, t: nat, v: nat, x: nat)
    requires Inv(pb, s) && Enabled(pb, s, Finish(t)) && ValuesOk(pb, s) && InWord(pb, v, x)
    ensures RowOk(pb, Apply(pb, s, Finish(t)), v, x)
  {
    var k := s.tasks[t];
    assert RowOk(pb, s, v, x) && DelayedOk(pb, s, t);
    if k.delayed.Some? {
      CopiedAt(pb, s.values, pb.plan.parts[t], k.delayed.value, v, x);
    }
  }

  lemma ProbeRow(pb: Problem, s: State, t: nat, j: nat, v: nat, x: nat)
    requires Inv(pb, s) && Enabled(pb, s, Probe(t, j)) && ValuesOk(pb, s) && InWord(pb, v, x)
    ensures RowOk(pb, Apply(pb, s, Probe(t, j)), v, x)
  {
    var s', k, w := Apply(pb, s, Probe(t, j)), s.tasks[t], CurrentWord(pb, s, t);
    assert DelayedOk(pb, s, t) && TaskOk(pb, s, t);
    CopiedAt(pb, s.values, pb.plan.parts[t], (w, j), v, x);
    if k.delayed.Some? {
      CopiedAt(pb, s.values, pb.plan.parts[t], k.delayed.value, v, x);
    }
    if OwnerOf(pb, v, x) != t {
      assert s'.values[v][x] == s.values[v][x];
    }
    ProbedAt(pb, s, t, j, v, x);
    assert RowOk(pb, s, v, x);
  }

  /** Exactly the probed position becomes probed. */
  lemma ProbedAt(pb: Problem, s: State, t: nat, j: nat, v: nat, x: nat)
    requires Inv(pb, s) && Enabled(pb, s, Probe(t, j)) && InWord(pb, v, x) && PartAt(pb, v, x) < |pb.tables|
    ensures var p := PartAt(pb, v, x);
            Probed(pb, Apply(pb, s, Probe(t, j)), p, v, x) <==>
            Probed(pb, s, p, v, x) || (p == pb.plan.parts[t] && v == CurrentWord(pb, s, t) && x == j)
  {
  }

  lemma StepRow(pb: Problem, s: State, e: Event, v: nat, x: nat)
    requires Inv(pb, s) && Enabled(pb, s, e) && ValuesOk(pb, s) && InWord(pb, v, x)
    ensures SameShape(Apply(pb, s, e).values, s.values) && RowOk(pb, Apply(pb, s, e), v, x)
  {
    ValuesShape(pb, s, e);
    match e
    case Load(t) => LoadRow(pb, s, t, v, x);
    case Probe(t, j) => ProbeRow(pb, s, t, j, v, x);
    case Join(t) => JoinRow(pb, s, t, v, x);
    case Finish(t) => FinishRow(pb, s, t, v, x);
  }

  /** What was a new hit stays one. */
  lemma NewHitStays(pb: Problem, s: State, e: Event, v: nat, x: nat)
    requires Inv(pb, s) && Enabled(pb, s, e) && ValuesOk(pb, s) && InWord(pb, v, x) && NewHit(pb, s, v, x)
    ensures NewHit(pb, Apply(pb, s, e), v, x)
  {
    assert TaskOk(pb, s, e.t);
  }

  lemma StepDelayed(pb: Problem, s: State, e: Event, t: nat)
    requires Inv(pb, s) && Enabled(pb, s, e) && ValuesOk(pb, s) && t < |s.tasks|
    ensures DelayedOk(pb, Apply(pb, s, e), t)
  {
    var s' := Apply(pb, s, e);
    assert DelayedOk(pb, s, t) && TaskOk(pb, s, t);
    if s'.tasks[t].delayed == s.tasks[t].delayed {
      if s.tasks[t].delayed.Some? {
        NewHitStays(pb, s, e, s.tasks[t].delayed.value.0, s.tasks[t].delayed.value.1);
      }
    } else if s'.tasks[t].delayed.Some? {
      assert OwnerOk(pb.plan, pb.plan.parts[t], CurrentWord(pb, s, t));
    }
  }

  lemma StepValues(pb: Problem, s: State, e: Event)
    requires Inv(pb, s) && Enabled(pb, s, e) && ValuesOk(pb, s)
    ensures ValuesOk(pb, Apply(pb, s, e))
  {
    var s' := Apply(pb, s, e);
    ValuesShape(pb, s, e);
    forall w, j | 0 <= w < |pb.keys| && 0 <= j < |pb.keys[w]|
      ensures RowOk(pb, s', w, j)
    {
      StepRow(pb, s, e, w, j);
    }
    forall t | 0 <= t < |s'.tasks|
      ensures DelayedOk(pb, s', t)
    {
      StepDelayed(pb, s, e, t);
    }
  }

  // ---------------------------------------------------------------------------------------------
  // Whole runs.

  lemma {:induction false} RunInv(pb: Problem, ss: seq<State>, es: seq<Event>, n: nat)
    requires IsRun(pb, ss, es) && n <= |es|
    ensures Inv(pb, ss[n]) && Balanced(pb, ss[n]) && ValuesOk(pb, ss[n])
  {
    if n == 0 {
      InitialInv(pb, ss[0]);
      NothingOwed(ss[0].tasks);
    } else {
      RunInv(pb, ss, es, n - 1);
      assert Enabled(pb, ss[n - 1], es[n - 1]) && ss[n] == Apply(pb, ss[n - 1], es[n - 1]);
      StepInv(pb, ss[n - 1], es[n - 1]);
      StepBalanced(pb, ss[n - 1], es[n - 1]);
      StepValues(pb, ss[n - 1], es[n - 1]);
    }
  }

  ghost predicate AllDone(s: State) {
    forall t :: 0 <= t < |s.tasks| ==> s.tasks[t].done
  }

  /** A bit is on exactly if it was on before or its key is resident; the row of a newly found key is the resident row
      and every other row is untouched; and the reported total is the number of bits turned on. */
  ghost predicate IsAnswer(pb: Problem, s: State)
    requires ProblemOk(pb)
  {
    && |s.mask| == |pb.keys| && SameShape(s.values, pb.values)
    && (forall w, j: nat :: 0 <= w < |pb.keys| ==> (j in s.mask[w] <==> j in pb.mask[w] || IsHit(pb, w, j)))
    && (forall w, j :: 0 <= w < |pb.keys| && 0 <= j < |pb.keys[w]| ==>
          s.values[w][j] ==
          if IsHit(pb, w, j) && j !in pb.mask[w] && !pb.copying.NoValues?
          then RowAt(pb, PartAt(pb, w, j), w, j).value else pb.values[w][j])
    && s.total == BitCount(s.mask) - BitCount(pb.mask)
  }

  /** Whatever the interleaving, the lookup has its answer once every task has finished. */
  lemma FindIsCorrect(pb: Problem, ss: seq<State>, es: seq<Event>)
    requires IsRun(pb, ss, es) && AllDone(ss[|es|])
    ensures IsAnswer(pb, ss[|es|])
  {
    var s := ss[|es|];
    RunInv(pb, ss, es, |es|);
    NothingOwed(s.tasks);
    forall w: nat, j: nat | InWord(pb, w, j)
      ensures RowOk(pb, s, w, j) && !InFlight(pb, s, w, j)
      ensures Joined(pb, s, PartAt(pb, w, j), w) && Probed(pb, s, PartAt(pb, w, j), w, j)
    {
      DonePosition(pb, s, w, j);
    }
    forall w, j: nat | 0 <= w < |pb.keys|
      ensures j in s.mask[w] <==> j in pb.mask[w] || IsHit(pb, w, j)
    {
      assert IsHit(pb, w, j) ==> InWord(pb, w, j);
    }
    forall w, j | 0 <= w < |pb.keys| && 0 <= j < |pb.keys[w]|
      ensures s.values[w][j] ==
              if IsHit(pb, w, j) && j !in pb.mask[w] && !pb.copying.NoValues?
              then RowAt(pb, PartAt(pb, w, j), w, j).value else pb.values[w][j]
    {
      assert InWord(pb, w, j);
    }
  }

  lemma DonePosition(pb: Problem, s: State, w: nat, j: nat)
    requires Inv(pb, s) && ValuesOk(pb, s) && AllDone(s) && InWord(pb, w, j)
    ensures RowOk(pb, s, w, j) && !InFlight(pb, s, w, j)
    ensures Joined(pb, s, PartAt(pb, w, j), w) && Probed(pb, s, PartAt(pb, w, j), w, j)
  {
    var t := OwnerOf(pb, w, j);
    assert OwnerOk(pb.plan, PartAt(pb, w, j), w) && TaskOk(pb, s, t) && s.tasks[t].done;
  }

  /** Until every task has finished, some task can take a step. */
  lemma NoDeadlock(pb: Problem, ss: seq<State>, es: seq<Event>) returns (e: Event)
    requires IsRun(pb, ss, es) && !AllDone(ss[|es|])
    ensures Enabled(pb, ss[|es|], e)
  {
    var s := ss[|es|];
    RunInv(pb, ss, es, |es|);
    var t: nat :| t < |s.tasks| && !s.tasks[t].done;
    var k := s.tasks[t];
    assert TaskOk(pb, s, t);
    if !k.inWord {
      e := if k.step == |pb.plan.words[t]| then Finish(t) else Load(t);
    } else if k.todo == {} {
      e := Join(t);
    } else {
      e := Probe(t, Least(k.todo));
    }
  }

  lemma {:induction false} LeastExists(xs: set<nat>) returns (x: nat)
    requires xs != {}
    ensures x in xs && forall y :: y in xs ==> x <= y
  {
    x :| x in xs;
    if y :| y in xs && y < x {
      assert y in xs - {x};
      var z := LeastExists(xs - {x});
      forall v | v in xs
        ensures z <= v
      {
        assert v == x || v in xs - {x};
      }
      x := z;
    }
  }

  ghost function Least(xs: set<nat>): (x: nat)
    requires xs != {}
    ensures x in xs && forall y :: y in xs ==> x <= y
  {
    assert exists x :: x in xs && forall y :: y in xs ==> x <= y by {
      var x := LeastExists(xs);
    }
    var x :| x in xs && forall y :: y in xs ==> x <= y;
    x
  }
}
