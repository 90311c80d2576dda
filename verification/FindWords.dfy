/** The parallel lookup on the mask words themselves: loads, joins, hit counts and the iteration over clear bits by the
    bit operations of the code. It refines the lookup on sets of positions of module ParallelFind step by step. */
module FindWords {

  import Arith
  import opened BitMask
  import opened Common
  import FP = FindPlan
  import PF = ParallelFind

  datatype Task = Task(step: nat, inWord: bool, loaded: nat, todo: nat, mask: nat, hits: int,
                       delayed: Option<(nat, nat)>, done: bool)

  datatype State = State(mask: seq<nat>, values: seq<seq<PF.Row>>, tasks: seq<Task>, total: int)

  datatype Event = Load(t: nat) | Probe(t: nat) | Join(t: nat) | Finish(t: nat)

  // ---------------------------------------------------------------------------------------------
  // The sets that the words stand for.

  ghost function Sets(words: seq<nat>): (r: seq<set<nat>>)
    ensures |r| == |words|
  {
    seq(|words|, w requires 0 <= w < |words| => Bits(words[w]))
  }

  ghost function TaskSets(k: Task): PF.Task {
    PF.Task(k.step, k.inWord, Bits(k.loaded), Bits(k.todo), Bits(k.mask), k.hits, k.delayed, k.done)
  }

  ghost function TasksSets(tasks: seq<Task>): (r: seq<PF.Task>)
    ensures |r| == |tasks|
  {
    seq(|tasks|, t requires 0 <= t < |tasks| => TaskSets(tasks[t]))
  }

  ghost function StateSets(s: State): PF.State {
    PF.State(Sets(s.mask), s.values, TasksSets(s.tasks), s.total)
  }

  ghost function EventSets(s: State, e: Event): PF.Event
    requires e.t < |s.tasks| && (e.Probe? ==> s.tasks[e.t].todo > 0)
  {
    match e
    case Load(t) => PF.Load(t)
    case Probe(t) => PF.Probe(t, Next(s.tasks[t].todo))
    case Join(t) => PF.Join(t)
    case Finish(t) => PF.Finish(t)
  }

  // ---------------------------------------------------------------------------------------------
  // The steps.

  predicate Enabled(pb: PF.Problem, s: State, e: Event) {
    && e.t < |s.tasks| == |pb.plan.words| == |pb.plan.parts| && !s.tasks[e.t].done
    && var k := s.tasks[e.t];
       match e
       case Load(t) => !k.inWord && k.step < |pb.plan.words[t]| && pb.plan.words[t][k.step] < |s.mask|
       case Probe(t) => k.inWord && k.step < |pb.plan.words[t]| && k.todo > 0
       case Join(t) => k.inWord && k.step < |pb.plan.words[t]| && k.todo == 0 && pb.plan.words[t][k.step] < |s.mask|
       case Finish(t) => !k.inWord && k.step == |pb.plan.words[t]|
  }

  /** `width` is the number of bits of a word. */
  ghost function Apply(pb: PF.Problem, width: nat, s: State, e: Event): State
    requires Enabled(pb, s, e) && WordsOk(pb, width, s)
  {
    var k, p := s.tasks[e.t], pb.plan.parts[e.t];
    match e
    case Load(t) =>
      var w := pb.plan.words[t][k.step];
      var word := s.mask[w];
      s.(tasks := s.tasks[t := k.(inWord := true, loaded := word, mask := word, hits := k.hits - Count(word),
                                  todo := Clip(Invert(word, width), |pb.keys[w]|, width))])
    case Probe(t) =>
      var w, j := pb.plan.words[t][k.step], Next(k.todo);
      if !PF.Finds(pb, p, w, j) then s.(tasks := s.tasks[t := k.(todo := Skip(k.todo))])
      else
        var k' := k.(todo := Skip(k.todo), mask := Set(k.mask, j));
        if pb.copying.NoValues? then s.(tasks := s.tasks[t := k'])
        else if pb.copying.Direct? then s.(tasks := s.tasks[t := k'], values := PF.Copied(pb, s.values, p, (w, j)))
        else s.(tasks := s.tasks[t := k'.(delayed := Some((w, j)))], values := PF.Flushed(pb, s.values, p, k.delayed))
    case Join(t) =>
      var w := pb.plan.words[t][k.step];
      s.(mask := s.mask[w := Or(s.mask[w], k.mask)],
         tasks := s.tasks[t := k.(inWord := false, step := k.step + 1, hits := k.hits + Count(k.mask))])
    case Finish(t) =>
      s.(values := PF.Flushed(pb, s.values, p, k.delayed), total := s.total + k.hits,
         tasks := s.tasks[t := k.(done := true, delayed := None)])
  }

  /** All words fit their width, and so do the keys of a word. */
  ghost predicate WordsOk(pb: PF.Problem, width: nat, s: State) {
    && |s.mask| == |pb.keys|
    && (forall w :: 0 <= w < |s.mask| ==> s.mask[w] < Pow2(width) && |pb.keys[w]| <= width)
    && (forall t :: 0 <= t < |s.tasks| ==> s.tasks[t].mask < Pow2(width) && s.tasks[t].todo < Pow2(width))
  }

  // ---------------------------------------------------------------------------------------------
  // Refinement.

  lemma LoadTodo(pb: PF.Problem, width: nat, w: nat, word: nat)
    requires w < |pb.keys| && |pb.keys[w]| <= width && word < Pow2(width)
    ensures Bits(Clip(Invert(word, width), |pb.keys[w]|, width)) == PF.ToProbe(pb, w, Bits(word))
    ensures Clip(Invert(word, width), |pb.keys[w]|, width) < Pow2(width)
  {
    var x, n := Invert(word, width), |pb.keys[w]|;
    InvertBits(word, width);
    ClipBits(x, n, width);
    forall j: nat
      ensures j in Bits(Clip(x, n, width)) <==> j in PF.ToProbe(pb, w, Bits(word))
    {
    }
    AndLess(x, if n < width then Partial(n, width) else 0);
  }

  lemma TasksUpdate(tasks: seq<Task>, t: nat, k: Task)
    requires t < |tasks|
    ensures TasksSets(tasks[t := k]) == TasksSets(tasks)[t := TaskSets(k)]
  {
  }

  lemma MaskUpdate(words: seq<nat>, w: nat, word: nat)
    requires w < |words|
    ensures Sets(words[w := word]) == Sets(words)[w := Bits(word)]
  {
  }

  ghost predicate Refines(pb: PF.Problem, width: nat, s: State, e: Event)
    requires PF.ProblemOk(pb) && Enabled(pb, s, e) && WordsOk(pb, width, s)
  {
    && PF.Enabled(pb, StateSets(s), EventSets(s, e))
    && StateSets(Apply(pb, width, s, e)) == PF.Apply(pb, StateSets(s), EventSets(s, e))
    && WordsOk(pb, width, Apply(pb, width, s, e))
  }

  lemma LoadRefines(pb: PF.Problem, width: nat, s: State, t: nat)
    requires PF.Inv(pb, StateSets(s)) && WordsOk(pb, width, s) && Enabled(pb, s, Load(t))
    ensures Refines(pb, width, s, Load(t))
  {
    var k := s.tasks[t];
    var w := pb.plan.words[t][k.step];
    var word := s.mask[w];
    LoadTodo(pb, width, w, word);
    CountBits(word);
    TasksUpdate(s.tasks, t, k.(inWord := true, loaded := word, mask := word, hits := k.hits - Count(word),
                               todo := Clip(Invert(word, width), |pb.keys[w]|, width)));
  }

  lemma JoinRefines(pb: PF.Problem, width: nat, s: State, t: nat)
    requires PF.Inv(pb, StateSets(s)) && WordsOk(pb, width, s) && Enabled(pb, s, Join(t))
    ensures Refines(pb, width, s, Join(t))
  {
    var k := s.tasks[t];
    var w := pb.plan.words[t][k.step];
    ZeroBits(k.todo);
    OrBits(s.mask[w], k.mask);
    OrWidth(s.mask[w], k.mask, width);
    CountBits(k.mask);
    MaskUpdate(s.mask, w, Or(s.mask[w], k.mask));
    TasksUpdate(s.tasks, t, k.(inWord := false, step := k.step + 1, hits := k.hits + Count(k.mask)));
  }

  lemma FinishRefines(pb: PF.Problem, width: nat, s: State, t: nat)
    requires PF.Inv(pb, StateSets(s)) && WordsOk(pb, width, s) && Enabled(pb, s, Finish(t))
    ensures Refines(pb, width, s, Finish(t))
  {
    TasksUpdate(s.tasks, t, s.tasks[t].(done := true, delayed := None));
  }

  /** The lowest position left to probe is a position of the word, and the bit operations take it off. */
  lemma ProbeNext(pb: PF.Problem, width: nat, s: State, t: nat)
    requires PF.Inv(pb, StateSets(s)) && WordsOk(pb, width, s) && Enabled(pb, s, Probe(t))
    ensures var k, j := s.tasks[t], Next(s.tasks[t].todo);
            && PF.Enabled(pb, StateSets(s), PF.Probe(t, j)) && j < width
            && Bits(Skip(k.todo)) == Bits(k.todo) - {j} && Skip(k.todo) < Pow2(width)
            && Bits(Set(k.mask, j)) == Bits(k.mask) + {j}
  {
    var k := s.tasks[t];
    SkipBits(k.todo);
    SkipLess(k.todo);
    assert PF.TaskOk(pb, StateSets(s), t);
    SetBits(k.mask, Next(k.todo));
  }

  lemma ProbeRefines(pb: PF.Problem, width: nat, s: State, t: nat)
    requires PF.Inv(pb, StateSets(s)) && WordsOk(pb, width, s) && Enabled(pb, s, Probe(t))
    ensures Refines(pb, width, s, Probe(t))
  {
    var k := s.tasks[t];
    var w, j := pb.plan.words[t][k.step], Next(k.todo);
    ProbeNext(pb, width, s, t);
    var k' := k.(todo := Skip(k.todo), mask := Set(k.mask, j));
    if PF.Finds(pb, pb.plan.parts[t], w, j) {
      SetWidth(k.mask, j, width);
      TasksUpdate(s.tasks, t, k');
      TasksUpdate(s.tasks, t, k'.(delayed := Some((w, j))));
    } else {
      TasksUpdate(s.tasks, t, k.(todo := Skip(k.todo)));
    }
  }

  lemma StepRefines(pb: PF.Problem, width: nat, s: State, e: Event)
    requires PF.Inv(pb, StateSets(s)) && WordsOk(pb, width, s) && Enabled(pb, s, e)
    ensures Refines(pb, width, s, e)
  {
    match e
    case Load(t) => LoadRefines(pb, width, s, t);
    case Probe(t) => ProbeRefines(pb, width, s, t);
    case Join(t) => JoinRefines(pb, width, s, t);
    case Finish(t) => FinishRefines(pb, width, s, t);
  }

  // ---------------------------------------------------------------------------------------------
  // Runs.

  ghost predicate Initial(pb: PF.Problem, width: nat, words: seq<nat>, s: State) {
    && WordsOk(pb, width, s) && s.mask == words && pb.mask == Sets(words)
    && s.values == pb.values && s.total == 0 && |s.tasks| == |pb.plan.words|
    && forall t :: 0 <= t < |s.tasks| ==> s.tasks[t] == Task(0, false, 0, 0, 0, 0, None, false)
  }

  ghost predicate IsStep(pb: PF.Problem, width: nat, s: State, e: Event, s': State) {
    Enabled(pb, s, e) && (WordsOk(pb, width, s) ==> s' == Apply(pb, width, s, e))
  }

  ghost predicate IsRun(pb: PF.Problem, width: nat, words: seq<nat>, ss: seq<State>, es: seq<Event>) {
    && PF.ProblemOk(pb) && |ss| == |es| + 1 && Initial(pb, width, words, ss[0])
    && forall i :: 0 <= i < |es| ==> IsStep(pb, width, ss[i], es[i], ss[i + 1])
  }

  /** The run on sets beside a run on words. */
  ghost function Shadow(ss: seq<State>): (r: seq<PF.State>)
    ensures |r| == |ss|
  {
    seq(|ss|, i requires 0 <= i < |ss| => StateSets(ss[i]))
  }

  lemma InitialRefines(pb: PF.Problem, width: nat, words: seq<nat>, s: State)
    requires Initial(pb, width, words, s)
    ensures PF.Initial(pb, StateSets(s))
  {
    ZeroBits(0);
  }

  lemma {:induction false} RunRefines(pb: PF.Problem, width: nat, words: seq<nat>, ss: seq<State>, es: seq<Event>,
                                      n: nat)
    returns (pes: seq<PF.Event>)
    requires IsRun(pb, width, words, ss, es) && n <= |es|
    ensures |pes| == n && PF.IsRun(pb, Shadow(ss[..n + 1]), pes) && WordsOk(pb, width, ss[n])
  {
    if n == 0 {
      pes := [];
      InitialRefines(pb, width, words, ss[0]);
    } else {
      var before := RunRefines(pb, width, words, ss, es, n - 1);
      var s, e := ss[n - 1], es[n - 1];
      PF.RunInv(pb, Shadow(ss[..n]), before, n - 1);
      assert Shadow(ss[..n])[n - 1] == StateSets(s);
      assert IsStep(pb, width, s, e, ss[n]);
      StepRefines(pb, width, s, e);
      pes := before + [EventSets(s, e)];
      ShadowRun(pb, Shadow(ss[..n]), before, StateSets(ss[n]), EventSets(s, e));
      assert Shadow(ss[..n + 1]) == Shadow(ss[..n]) + [StateSets(ss[n])];
    }
  }

  lemma ShadowRun(pb: PF.Problem, ps: seq<PF.State>, pes: seq<PF.Event>, p: PF.State, e: PF.Event)
    requires PF.IsRun(pb, ps, pes) && PF.Enabled(pb, ps[|pes|], e) && p == PF.Apply(pb, ps[|pes|], e)
    ensures PF.IsRun(pb, ps + [p], pes + [e])
  {
    var qs, qes := ps + [p], pes + [e];
    forall i | 0 <= i < |qes|
      ensures PF.Enabled(pb, qs[i], qes[i]) && qs[i + 1] == PF.Apply(pb, qs[i], qes[i])
    {
      if i < |pes| {
        assert PF.Enabled(pb, ps[i], pes[i]) && ps[i + 1] == PF.Apply(pb, ps[i], pes[i]);
      }
    }
  }

  function CountAll(words: seq<nat>): nat {
    if words == [] then 0 else CountAll(words[..|words| - 1]) + Count(words[|words| - 1])
  }

  lemma {:induction false} CountAllIs(words: seq<nat>)
    ensures CountAll(words) == PF.BitCount(Sets(words))
  {
    if words != [] {
      var n := |words| - 1;
      CountAllIs(words[..n]);
      CountBits(words[n]);
      assert Sets(words)[..n] == Sets(words[..n]);
    }
  }

  ghost predicate AllDone(s: State) {
    forall t :: 0 <= t < |s.tasks| ==> s.tasks[t].done
  }

  /** For every interleaving the lookup on mask words turns on exactly the bits of the resident keys and reports their
      number. */
  lemma FindIsCorrect(pb: PF.Problem, width: nat, words: seq<nat>, ss: seq<State>, es: seq<Event>)
    requires IsRun(pb, width, words, ss, es) && AllDone(ss[|es|])
    ensures |ss[|es|].mask| == |words| == |pb.keys|
    ensures forall w, j: nat :: 0 <= w < |words| ==>
            (Bit(ss[|es|].mask[w], j) <==> Bit(words[w], j) || PF.IsHit(pb, w, j))
    ensures ss[|es|].total == CountAll(ss[|es|].mask) - CountAll(words)
    ensures PF.IsAnswer(pb, StateSets(ss[|es|]))
  {
    var n := |es|;
    var pes := RunRefines(pb, width, words, ss, es, n);
    assert ss[..n + 1] == ss;
    assert Shadow(ss)[n] == StateSets(ss[n]);
    PF.FindIsCorrect(pb, Shadow(ss), pes);
    CountAllIs(ss[n].mask);
    CountAllIs(words);
    forall w, j: nat | 0 <= w < |words|
      ensures Bit(ss[n].mask[w], j) <==> Bit(words[w], j) || PF.IsHit(pb, w, j)
    {
      InBits(ss[n].mask[w], j);
      InBits(words[w], j);
    }
  }

  /** Two runs of a lookup end with the same words and the same number of hits, whatever their interleavings. */
  lemma SameWords(pb: PF.Problem, width: nat, words: seq<nat>, ss: seq<State>, es: seq<Event>, ss': seq<State>,
                  es': seq<Event>)
    requires IsRun(pb, width, words, ss, es) && AllDone(ss[|es|]) && IsRun(pb, width, words, ss', es') &&
             AllDone(ss'[|es'|])
    ensures ss[|es|].mask == ss'[|es'|].mask && ss[|es|].total == ss'[|es'|].total
  {
    FindIsCorrect(pb, width, words, ss, es);
    FindIsCorrect(pb, width, words, ss', es');
    var a, b := ss[|es|].mask, ss'[|es'|].mask;
    forall w | 0 <= w < |words|
      ensures a[w] == b[w]
    {
      forall j: nat
        ensures Bit(a[w], j) <==> Bit(b[w], j)
      {
        assert Bit(a[w], j) <==> Bit(words[w], j) || PF.IsHit(pb, w, j);
        assert Bit(b[w], j) <==> Bit(words[w], j) || PF.IsHit(pb, w, j);
      }
      BitsExtensional(a[w], b[w]);
    }
    assert a == b;
  }

  // ---------------------------------------------------------------------------------------------
  // The lookup with a masked hash as partitioner.

  /** A lookup in `Pow2(bits)` partitions chosen by the low bits of a hash. */
  ghost predicate Masked(q: FP.Lookup, hash: int -> nat, bits: nat) {
    && |q.tables| == Pow2(bits) && forall k :: q.partOf(k) == And(hash(k), Pow2(bits) - 1)
  }

  lemma MaskedOk(q: FP.Lookup, hash: int -> nat, bits: nat)
    requires Masked(q, hash, bits) && q.width >= 1 && q.taskSize >= 1
    requires |q.mask| == Arith.CeilDiv(|q.keys|, q.width) && |q.values| == |q.keys|
    ensures FP.LookupOk(q)
  {
    forall k
      ensures q.partOf(k) < |q.tables|
    {
      AndOnes(hash(k), bits);
      assert q.partOf(k) == And(hash(k), Pow2(bits) - 1);
    }
  }

  /** Key `i`, at bit `j` of word `w`: the bit is on exactly if it was on or the key is in the table its hash
      selects. */
  ghost predicate BitAnswer(q: FP.Lookup, hash: int -> nat, bits: nat, words: seq<nat>, s: State, i: nat, w: nat,
                            j: nat) {
    && i < |q.keys| && w < |words| == |s.mask| && q.partOf(q.keys[i]) < |q.tables|
    && q.partOf(q.keys[i]) == hash(q.keys[i]) % Pow2(bits)
    && (Bit(s.mask[w], j) <==> Bit(words[w], j) || q.keys[i] in q.tables[q.partOf(q.keys[i])])
  }

  /** The whole lookup, by key position, for partitions chosen by the low bits of any hash, any mask width, task size
      and interleaving; the reported hits are the growth of the population count. */
  lemma LookupIsCorrect(q: FP.Lookup, hash: int -> nat, bits: nat, words: seq<nat>, ss: seq<State>, es: seq<Event>,
                        i: nat)
    requires FP.LookupOk(q) && Masked(q, hash, bits) && i < |q.keys|
    requires IsRun(FP.MakeProblem(q), q.width, words, ss, es) && AllDone(ss[|es|])
    ensures BitAnswer(q, hash, bits, words, ss[|es|], i, i / q.width, i % q.width)
    ensures ss[|es|].total == CountAll(ss[|es|].mask) - CountAll(words)
  {
    var pb := FP.MakeProblem(q);
    FindIsCorrect(pb, q.width, words, ss, es);
    Arith.DivBound(i, q.width);
    FP.KeyPosition(q, i);
    KeyBit(q, pb, hash, bits, words, ss[|es|], i, i / q.width, i % q.width);
  }

  lemma KeyBit(q: FP.Lookup, pb: PF.Problem, hash: int -> nat, bits: nat, words: seq<nat>, s: State, i: nat, w: nat,
               j: nat)
    requires Masked(q, hash, bits) && PF.ProblemOk(pb) && i < |q.keys| && PF.InWord(pb, w, j) &&
             pb.keys[w][j] == q.keys[i]
    requires pb.tables == q.tables && pb.partOf == q.partOf && |s.mask| == |words| == |pb.keys|
    requires forall v, x: nat :: 0 <= v < |words| ==> (Bit(s.mask[v], x) <==> Bit(words[v], x) || PF.IsHit(pb, v, x))
    ensures BitAnswer(q, hash, bits, words, s, i, w, j)
  {
    var k := q.keys[i];
    AndOnes(hash(k), bits);
    assert q.partOf(k) == And(hash(k), Pow2(bits) - 1);
    assert PF.PartAt(pb, w, j) == q.partOf(k);
  }
}
