/** The interleaved lookup of the nvHashMap-backed table: what the loops of module NvhmTask write and count, given
    the words that they load in a run, is what the lookup ends with. */
module NvhmLookup {

  import Arith
  import opened BitMask
  import opened Common
  import opened NvhmFind
  import opened NvhmTask
  import PF = ParallelFind

  /** `k` is what task `t` of the problem has to do. */
  ghost predicate SameTask(k: Work, pb: PF.Problem, t: nat) {
    && WorkOk(k) && t < |pb.plan.words| == |pb.plan.parts| && k.words == pb.plan.words[t] && k.copying == pb.copying
    && k.part == pb.plan.parts[t] && |pb.mask| == |pb.keys|
    && forall i :: 0 <= i < |k.words| ==> SameWord(k, pb, t, k.words[i])
  }

  /** Event `n` is the load of the `i`th word. */
  ghost predicate LoadedAt(k: Work, ss: seq<PF.State>, es: seq<PF.Event>, t: nat, i: nat, n: nat) {
    && n < |es| < |ss| && es[n] == PF.Load(t) && t < |ss[n].tasks| && ss[n].tasks[t].step == i
    && i < |k.words| == |k.loads| && k.words[i] < |ss[n].mask| && Bits(k.loads[i]) == ss[n].mask[k.words[i]]
  }

  /** The loads are those of the run. */
  ghost predicate LoadsOfRun(k: Work, ss: seq<PF.State>, es: seq<PF.Event>, t: nat) {
    forall i: nat :: i < |k.loads| ==> LoadOfRun(k, ss, es, t, i)
  }

  ghost predicate LoadOfRun(k: Work, ss: seq<PF.State>, es: seq<PF.Event>, t: nat, i: nat) {
    exists n: nat :: LoadedAt(k, ss, es, t, i, n)
  }

  // ---------------------------------------------------------------------------------------------
  // One word.

  /** The positions of word `w` that partition `p` turns on. */
  ghost function NewIn(pb: PF.Problem, p: nat, w: nat): set<nat>
    requires w < |pb.keys| == |pb.mask|
  {
    set j: nat | j < |pb.keys[w]| && PF.Finds(pb, p, w, j) && j !in pb.mask[w]
  }

  /** On the positions that the partition finds, the loaded word is as at the start. */
  ghost predicate LoadOk(k: Work, pb: PF.Problem, i: nat) {
    && i < |k.words| == |k.loads| && k.words[i] < |pb.mask|
    && forall j: nat :: PF.Finds(pb, k.part, k.words[i], j) ==> (j in Bits(k.loads[i]) <==> j in pb.mask[k.words[i]])
  }

  lemma LoadIsOk(k: Work, pb: PF.Problem, ss: seq<PF.State>, es: seq<PF.Event>, t: nat, i: nat)
    requires PF.IsRun(pb, ss, es) && SameTask(k, pb, t) && i < |k.loads| && LoadOfRun(k, ss, es, t, i)
    ensures LoadOk(k, pb, i)
  {
    var n: nat :| LoadedAt(k, ss, es, t, i, n);
    PF.RunInv(pb, ss, es, n);
    var s, w := ss[n], k.words[i];
    assert PF.Enabled(pb, s, es[n]) && PF.CurrentWord(pb, s, t) == w;
    forall j: nat | PF.Finds(pb, k.part, w, j)
      ensures j in Bits(k.loads[i]) <==> j in pb.mask[w]
    {
      PF.LoadSeesStart(pb, s, t, j);
    }
  }

  lemma WordGains(k: Work, pb: PF.Problem, t: nat, i: nat, o: Output)
    requires SameTask(k, pb, t) && LoadOk(k, pb, i)
    ensures var o1, w := FindWord(k, k.words[i], k.loads[i], o), k.words[i];
            w < |pb.keys| && Count(o1.mask) == Count(k.loads[i]) + |NewIn(pb, k.part, w)|
  {
    var w, load := k.words[i], k.loads[i];
    var mask := FindWord(k, w, load, o).mask;
    assert SameWord(k, pb, t, w);
    forall j: nat
      ensures j in Bits(mask) <==> j in Bits(load) || j in NewIn(pb, k.part, w)
    {
      FindFinds(FindOf(k, w), o.(mask := load), Left(k, w), k.width, j);
      FoundSame(k, pb, t, w, j);
    }
    assert Bits(mask) == Bits(load) + NewIn(pb, k.part, w);
    assert Bits(load) !! NewIn(pb, k.part, w);
    CountBits(mask);
    CountBits(load);
  }

  // ---------------------------------------------------------------------------------------------
  // Hits.

  /** What partition `p` turns on in the words `ws`. */
  ghost function NewOver(pb: PF.Problem, p: nat, ws: seq<nat>): nat
    requires |pb.mask| == |pb.keys|
  {
    if ws == [] then 0
    else
      var w := ws[|ws| - 1];
      NewOver(pb, p, ws[..|ws| - 1]) + if w < |pb.keys| then |NewIn(pb, p, w)| else 0
  }

  lemma NewNext(pb: PF.Problem, p: nat, ws: seq<nat>, n: nat)
    requires |pb.mask| == |pb.keys| && n < |ws| && ws[n] < |pb.keys|
    ensures NewOver(pb, p, ws[..n + 1]) == NewOver(pb, p, ws[..n]) + |NewIn(pb, p, ws[n])|
  {
    assert ws[..n + 1][..n] == ws[..n];
  }

  ghost predicate LoadsOk(k: Work, pb: PF.Problem) {
    forall i: nat :: i < |k.words| ==> LoadOk(k, pb, i)
  }

  lemma UpToNext(k: Work, o: Output, n: nat)
    requires WorkOk(k) && n < |k.words|
    ensures var r, r' := FindUpTo(k, o, n), FindUpTo(k, o, n + 1);
            && r'.out == FindWord(k, k.words[n], k.loads[n], r.out)
            && r'.hits == r.hits - Count(k.loads[n]) + Count(r'.out.mask)
  {
  }

  lemma WordHits(k: Work, pb: PF.Problem, t: nat, o: Output, i: nat)
    requires SameTask(k, pb, t) && LoadsOk(k, pb) && i < |k.words|
    ensures FindUpTo(k, o, i + 1).hits - FindUpTo(k, o, i).hits ==
            NewOver(pb, k.part, k.words[..i + 1]) - NewOver(pb, k.part, k.words[..i])
  {
    UpToNext(k, o, i);
    assert LoadOk(k, pb, i);
    WordGains(k, pb, t, i, FindUpTo(k, o, i).out);
    NewNext(pb, k.part, k.words, i);
  }

  lemma {:induction false} TaskHits(k: Work, pb: PF.Problem, t: nat, o: Output, n: nat)
    requires SameTask(k, pb, t) && LoadsOk(k, pb) && n <= |k.words|
    ensures FindUpTo(k, o, n).hits == NewOver(pb, k.part, k.words[..n])
  {
    if n > 0 {
      TaskHits(k, pb, t, o, n - 1);
      WordHits(k, pb, t, o, n - 1);
    }
  }

  /** The hits that a task holds; the bits of a loaded word have been taken off. */
  function Held(k: PF.Task): int {
    k.hits + if k.inWord then |k.loaded| else 0
  }

  lemma OthersHold(pb: PF.Problem, s: PF.State, e: PF.Event, t: nat)
    requires PF.ProblemOk(pb) && PF.Enabled(pb, s, e) && t < |s.tasks| && e != PF.Join(t)
    ensures var s' := PF.Apply(pb, s, e);
            t < |s'.tasks| && s'.tasks[t].step == s.tasks[t].step && Held(s'.tasks[t]) == Held(s.tasks[t])
  {
  }

  /** The hits that a task of the interleaved lookup holds are those of the words it has joined. */
  ghost predicate HitsOk(pb: PF.Problem, s: PF.State, t: nat)
    requires PF.Inv(pb, s) && t < |s.tasks|
  {
    var k := s.tasks[t];
    assert PF.TaskOk(pb, s, t);
    Held(k) == NewOver(pb, pb.plan.parts[t], pb.plan.words[t][..k.step])
  }

  lemma JoinHits(pb: PF.Problem, s: PF.State, t: nat)
    requires PF.Inv(pb, s) && PF.Enabled(pb, s, PF.Join(t))
    ensures var k, w := s.tasks[t], PF.CurrentWord(pb, s, t);
            w < |pb.keys| && |k.mask| == |k.loaded| + |NewIn(pb, pb.plan.parts[t], w)|
  {
    var k, p, w := s.tasks[t], pb.plan.parts[t], PF.CurrentWord(pb, s, t);
    assert PF.TaskOk(pb, s, t) && PF.WordOk(pb, s, p, w, k);
    assert k.mask == k.loaded + NewIn(pb, p, w);
    assert k.loaded !! NewIn(pb, p, w);
  }

  lemma StepHits(pb: PF.Problem, s: PF.State, e: PF.Event, t: nat)
    requires PF.Inv(pb, s) && PF.Enabled(pb, s, e) && t < |s.tasks| && HitsOk(pb, s, t)
    ensures PF.Inv(pb, PF.Apply(pb, s, e)) && HitsOk(pb, PF.Apply(pb, s, e), t)
  {
    PF.StepInv(pb, s, e);
    if e == PF.Join(t) {
      JoinHits(pb, s, t);
      NewNext(pb, pb.plan.parts[t], pb.plan.words[t], s.tasks[t].step);
    } else {
      OthersHold(pb, s, e, t);
    }
  }

  /** The hits of the tasks that have finished. */
  function DoneHits(tasks: seq<PF.Task>): int {
    if tasks == [] then 0
    else DoneHits(tasks[..|tasks| - 1]) + if tasks[|tasks| - 1].done then tasks[|tasks| - 1].hits else 0
  }

  lemma {:induction false} DoneHitsChange(tasks: seq<PF.Task>, t: nat, k: PF.Task)
    requires t < |tasks| && !tasks[t].done
    ensures DoneHits(tasks[t := k]) == DoneHits(tasks) + if k.done then k.hits else 0
  {
    var n := |tasks| - 1;
    if t == n {
      assert tasks[t := k][..n] == tasks[..n];
    } else {
      DoneHitsChange(tasks[..n], t, k);
      assert tasks[t := k][..n] == tasks[..n][t := k];
    }
  }

  lemma {:induction false} NoneDone(tasks: seq<PF.Task>)
    requires forall t :: 0 <= t < |tasks| ==> !tasks[t].done
    ensures DoneHits(tasks) == 0
  {
    if tasks != [] {
      NoneDone(tasks[..|tasks| - 1]);
    }
  }

  ghost predicate AllHitsOk(pb: PF.Problem, s: PF.State)
    requires PF.Inv(pb, s)
  {
    s.total == DoneHits(s.tasks) && forall t :: 0 <= t < |s.tasks| ==> HitsOk(pb, s, t)
  }

  lemma {:induction false} RunHits(pb: PF.Problem, ss: seq<PF.State>, es: seq<PF.Event>, n: nat)
    requires PF.IsRun(pb, ss, es) && n <= |es|
    ensures PF.Inv(pb, ss[n]) && AllHitsOk(pb, ss[n])
  {
    PF.RunInv(pb, ss, es, n);
    if n == 0 {
      NoneDone(ss[0].tasks);
    } else {
      RunHits(pb, ss, es, n - 1);
      var s, e := ss[n - 1], es[n - 1];
      assert PF.Enabled(pb, s, e) && ss[n] == PF.Apply(pb, s, e);
      DoneHitsChange(s.tasks, e.t, ss[n].tasks[e.t]);
      forall t | 0 <= t < |s.tasks|
        ensures HitsOk(pb, ss[n], t)
      {
        assert HitsOk(pb, s, t);
        StepHits(pb, s, e, t);
      }
    }
  }

  ghost predicate WorksOk(ks: seq<Work>) {
    forall t :: 0 <= t < |ks| ==> WorkOk(ks[t])
  }

  /** The hits of all task loops together. */
  ghost function LoopHits(ks: seq<Work>, o: Output): int
    requires WorksOk(ks)
  {
    if ks == [] then 0
    else LoopHits(ks[..|ks| - 1], o) + FindUpTo(ks[|ks| - 1], o, |ks[|ks| - 1].words|).hits
  }

  lemma {:induction false} LoopHitsSum(ks: seq<Work>, o: Output, tasks: seq<PF.Task>)
    requires |ks| == |tasks| && WorksOk(ks)
    requires forall t :: 0 <= t < |ks| ==> tasks[t].done && tasks[t].hits == FindUpTo(ks[t], o, |ks[t].words|).hits
    ensures LoopHits(ks, o) == DoneHits(tasks)
  {
    if ks != [] {
      LoopHitsSum(ks[..|ks| - 1], o, tasks[..|ks| - 1]);
    }
  }

  // ---------------------------------------------------------------------------------------------
  // Rows.

  /** The place of position `j` of word `w` among all keys. */
  function PlaceOf(width: nat, w: nat, j: nat): nat {
    w * width + j
  }

  lemma SameBase(w: nat, v: nat, j: nat, width: nat)
    requires j < width
    ensures v * width <= w * width + j < v * width + width <==> w == v
  {
    if w < v {
      Arith.MulMono(w + 1, v, width);
      assert (w + 1) * width == w * width + width;
    } else if v < w {
      Arith.MulMono(v + 1, w, width);
      assert (v + 1) * width == v * width + width;
    }
  }

  /** The positions that the loop over a word probes. */
  lemma Probes(f: Find, load: nat, left: nat, width: nat, j: nat)
    requires load < Pow2(width)
    ensures j in Own(f, Positions(Clear(load, left, width))) <==>
            j < left && j < width && j !in Bits(load) && Mine(f, j)
  {
    var head := Clear(load, left, width);
    PositionsOk(head);
    OwnOk(f, Positions(head));
    InvertBits(load, width);
    ClipBits(Invert(load, width), left, width);
  }

  /** The loop over one word writes the row of position `j` of word `w` exactly if the partition turns the position
      on. */
  lemma WordWrites(k: Work, pb: PF.Problem, t: nat, i: nat, w: nat, j: nat)
    requires SameTask(k, pb, t) && LoadOk(k, pb, i) && PF.InWord(pb, w, j) && j < k.width
    ensures var f := FindOf(k, k.words[i]);
            Found(f, Own(f, Positions(Clear(k.loads[i], Left(k, k.words[i]), k.width))), PlaceOf(k.width, w, j)) <==>
            k.words[i] == w && j in NewIn(pb, k.part, w)
  {
    var v, load := k.words[i], k.loads[i];
    var f, at := FindOf(k, v), PlaceOf(k.width, w, j);
    assert SameWord(k, pb, t, v);
    SameBase(w, v, j, k.width);
    if at >= f.base {
      Probes(f, load, Left(k, v), k.width, at - f.base);
    }
    if v == w {
      FoundSame(k, pb, t, w, j);
    }
  }

  /** From the rows `was` to the rows `now`, at most the row of one position changed, and it did if `writes`. */
  ghost predicate RowStep(was: map<nat, Row>, now: map<nat, Row>, at: nat, writes: bool, row: Option<Row>) {
    && (at in now <==> writes || at in was)
    && (at in now ==> if writes then row == Some(now[at]) else now[at] == was[at])
  }

  lemma FoundRow(k: Work, pb: PF.Problem, t: nat, v: nat, o: Output, js: seq<nat>, w: nat, j: nat, found: bool)
    requires SameWord(k, pb, t, v) && PF.InWord(pb, w, j) && j < k.width && CopyOk(FindOf(k, v), o)
    requires found == Found(FindOf(k, v), js, PlaceOf(k.width, w, j)) && (found ==> v == w)
    ensures CopyOk(FindOf(k, v), ProbeAll(FindOf(k, v), o, js))
    ensures RowStep(Settled(o), Settled(ProbeAll(FindOf(k, v), o, js)), PlaceOf(k.width, w, j),
                    found && !k.copying.NoValues?, PF.RowAt(pb, k.part, w, j))
  {
    ProbeAllRows(FindOf(k, v), o, js, PlaceOf(k.width, w, j));
  }

  /** What the loop over one word does to the row at a position. */
  lemma WordRow(k: Work, pb: PF.Problem, t: nat, i: nat, o: Output, w: nat, j: nat)
    requires SameTask(k, pb, t) && LoadOk(k, pb, i) && PF.InWord(pb, w, j) && j < k.width && CopyOk(FindOf(k, 0), o)
    ensures CopyOk(FindOf(k, 0), FindWord(k, k.words[i], k.loads[i], o))
    ensures RowStep(Settled(o), Settled(FindWord(k, k.words[i], k.loads[i], o)), PlaceOf(k.width, w, j),
                    k.words[i] == w && j in NewIn(pb, k.part, w) && !k.copying.NoValues?, PF.RowAt(pb, k.part, w, j))
  {
    var v, load, found := k.words[i], k.loads[i], k.words[i] == w && j in NewIn(pb, k.part, w);
    var f := FindOf(k, v);
    WordWrites(k, pb, t, i, w, j);
    assert Settled(o.(mask := load)) == Settled(o);
    FoundRow(k, pb, t, v, o.(mask := load), Own(f, Positions(Clear(load, Left(k, v), k.width))), w, j, found);
  }

  const START := Output(0, map[], None, [])

  /** The rows that the loop of a task has written after `n` words. */
  ghost function RowsAfter(k: Work, n: nat): map<nat, Row>
    requires WorkOk(k) && n <= |k.words|
  {
    Settled(FindUpTo(k, START, n).out)
  }

  /** If at every step place `at` of the rows `ms` is left alone or gets `row`, it has `row` after a step that wrote it,
      and is never there before. */
  lemma {:induction false} RowsOver(ms: seq<map<nat, Row>>, writes: seq<bool>, at: nat, row: Option<Row>)
    requires |ms| == |writes| + 1 && ms[0] == map[]
    requires forall i :: 0 <= i < |writes| ==> RowStep(ms[i], ms[i + 1], at, writes[i], row)
    ensures at in ms[|writes|] <==> true in writes
    ensures at in ms[|writes|] ==> row == Some(ms[|writes|][at])
  {
    if writes != [] {
      var n := |writes| - 1;
      RowsOver(ms[..n + 1], writes[..n], at, row);
      assert writes == writes[..n] + [writes[n]];
      assert RowStep(ms[n], ms[n + 1], at, writes[n], row);
    }
  }

  lemma {:induction false} CopyUpTo(k: Work, n: nat)
    requires WorkOk(k) && n <= |k.words|
    ensures CopyOk(FindOf(k, 0), FindUpTo(k, START, n).out)
  {
    if n > 0 {
      CopyUpTo(k, n - 1);
      var v, load, o := k.words[n - 1], k.loads[n - 1], FindUpTo(k, START, n - 1).out;
      var f := FindOf(k, v);
      ProbeAllRows(f, o.(mask := load), Own(f, Positions(Clear(load, Left(k, v), k.width))), 0);
    }
  }

  /** Word `i` writes the row of position `j` of word `w`. */
  ghost predicate WritesAt(k: Work, pb: PF.Problem, i: nat, w: nat, j: nat)
    requires i < |k.words| && w < |pb.keys| == |pb.mask|
  {
    k.words[i] == w && j in NewIn(pb, k.part, w) && !k.copying.NoValues?
  }

  lemma StepWrites(k: Work, pb: PF.Problem, t: nat, i: nat, w: nat, j: nat)
    requires SameTask(k, pb, t) && LoadsOk(k, pb) && i < |k.words| && PF.InWord(pb, w, j) && j < k.width
    ensures RowStep(RowsAfter(k, i), RowsAfter(k, i + 1), PlaceOf(k.width, w, j), WritesAt(k, pb, i, w, j),
                    PF.RowAt(pb, k.part, w, j))
  {
    CopyUpTo(k, i);
    assert LoadOk(k, pb, i);
    WordRow(k, pb, t, i, FindUpTo(k, START, i).out, w, j);
    UpToNext(k, START, i);
  }

  /** The rows that the loop of a task writes are those of the positions that it turns on. */
  ghost predicate WrittenRow(k: Work, pb: PF.Problem, w: nat, j: nat)
    requires WorkOk(k) && PF.InWord(pb, w, j) && |pb.mask| == |pb.keys|
  {
    var rows, at := RowsAfter(k, |k.words|), PlaceOf(k.width, w, j);
    && (at in rows <==> w in k.words && j in NewIn(pb, k.part, w) && !k.copying.NoValues?)
    && (at in rows ==> PF.RowAt(pb, k.part, w, j) == Some(rows[at]))
  }

  lemma TaskRows(k: Work, pb: PF.Problem, t: nat, w: nat, j: nat)
    requires SameTask(k, pb, t) && LoadsOk(k, pb) && PF.InWord(pb, w, j) && j < k.width
    ensures WrittenRow(k, pb, w, j)
  {
    var n, at, row := |k.words|, PlaceOf(k.width, w, j), PF.RowAt(pb, k.part, w, j);
    var ms := seq(n + 1, i requires 0 <= i <= n => RowsAfter(k, i));
    var writes := seq(n, i requires 0 <= i < n => WritesAt(k, pb, i, w, j));
    forall i | 0 <= i < n
      ensures RowStep(ms[i], ms[i + 1], at, writes[i], row)
    {
      StepWrites(k, pb, t, i, w, j);
    }
    RowsOver(ms, writes, at, row);
    WritesSome(k, pb, writes, w, j);
  }

  lemma WritesSome(k: Work, pb: PF.Problem, writes: seq<bool>, w: nat, j: nat)
    requires w < |pb.keys| == |pb.mask| && |writes| == |k.words|
    requires forall i :: 0 <= i < |writes| ==> writes[i] == WritesAt(k, pb, i, w, j)
    ensures true in writes <==> w in k.words && j in NewIn(pb, k.part, w) && !k.copying.NoValues?
  {
    if w in k.words && j in NewIn(pb, k.part, w) && !k.copying.NoValues? {
      var i :| 0 <= i < |k.words| && k.words[i] == w;
      assert writes[i];
    }
  }

  // ---------------------------------------------------------------------------------------------
  // The whole lookup.

  /** The loops of all tasks, with the words that they load in the run. */
  ghost predicate LoopsOf(ks: seq<Work>, pb: PF.Problem, width: nat, ss: seq<PF.State>, es: seq<PF.Event>) {
    && |ks| == |pb.plan.words|
    && forall t :: 0 <= t < |ks| ==> SameTask(ks[t], pb, t) && LoadsOfRun(ks[t], ss, es, t) && ks[t].width == width
  }

  /** The rows that the loop of task `t` writes. */
  ghost function RowsOf(ks: seq<Work>, t: nat): map<nat, Row>
    requires t < |ks| && WorkOk(ks[t])
  {
    RowsAfter(ks[t], |ks[t].words|)
  }

  /** Every row that a task loop writes for place `at` is `row`. */
  ghost predicate OnlyWrites(ks: seq<Work>, at: nat, row: Row)
    requires WorksOk(ks)
  {
    forall t :: 0 <= t < |ks| && at in RowsOf(ks, t) ==> RowsOf(ks, t)[at] == row
  }

  ghost predicate Writes(ks: seq<Work>, at: nat)
    requires WorksOk(ks)
  {
    exists t :: 0 <= t < |ks| && at in RowsOf(ks, t)
  }

  /** The output row of a position is the one that a task loop wrote for it, if any did, and otherwise as before. */
  ghost predicate RowFromLoops(ks: seq<Work>, pb: PF.Problem, width: nat, s: PF.State, w: nat, j: nat)
    requires WorksOk(ks)
  {
    && w < |s.values| && j < |s.values[w]| && w < |pb.values| && j < |pb.values[w]|
    && OnlyWrites(ks, PlaceOf(width, w, j), s.values[w][j])
    && (!Writes(ks, PlaceOf(width, w, j)) ==> s.values[w][j] == pb.values[w][j])
  }

  lemma LoopRow(ks: seq<Work>, pb: PF.Problem, width: nat, ss: seq<PF.State>, es: seq<PF.Event>, t: nat, w: nat, j: nat)
    requires PF.IsRun(pb, ss, es) && LoopsOf(ks, pb, width, ss, es) && t < |ks| && PF.InWord(pb, w, j) && j < width
    ensures WrittenRow(ks[t], pb, w, j)
  {
    forall i: nat | i < |ks[t].words|
      ensures LoadOk(ks[t], pb, i)
    {
      assert LoadOfRun(ks[t], ss, es, t, i);
      LoadIsOk(ks[t], pb, ss, es, t, i);
    }
    TaskRows(ks[t], pb, t, w, j);
  }

  /** A position that is turned on is turned on by the loop of its owner. */
  lemma OwnerWrites(ks: seq<Work>, pb: PF.Problem, width: nat, ss: seq<PF.State>, es: seq<PF.Event>, w: nat, j: nat)
    requires PF.IsRun(pb, ss, es) && LoopsOf(ks, pb, width, ss, es) && PF.InWord(pb, w, j) && j < width
    requires PF.IsHit(pb, w, j) && j !in pb.mask[w] && !pb.copying.NoValues?
    ensures WorksOk(ks) && Writes(ks, PlaceOf(width, w, j))
  {
    var p := PF.PartAt(pb, w, j);
    var t := PF.OwnerOf(pb, w, j);
    assert PF.OwnerOk(pb.plan, p, w);
    LoopRow(ks, pb, width, ss, es, t, w, j);
    assert pb.plan.words[t][pb.plan.owner[(p, w)].1] == w;
    assert PlaceOf(width, w, j) in RowsOf(ks, t);
  }

  /** The row that the lookup ends with at a position. */
  ghost predicate RowIs(pb: PF.Problem, s: PF.State, w: nat, j: nat)
    requires PF.InWord(pb, w, j) && |pb.mask| == |pb.keys|
  {
    && w < |s.values| && j < |s.values[w]| && w < |pb.values| && j < |pb.values[w]|
    && s.values[w][j] == if PF.IsHit(pb, w, j) && j !in pb.mask[w] && !pb.copying.NoValues?
                         then PF.RowAt(pb, PF.PartAt(pb, w, j), w, j).value else pb.values[w][j]
  }

  lemma AnswerRow(pb: PF.Problem, ss: seq<PF.State>, es: seq<PF.Event>, w: nat, j: nat)
    requires PF.IsRun(pb, ss, es) && PF.AllDone(ss[|es|]) && PF.InWord(pb, w, j)
    ensures RowIs(pb, ss[|es|], w, j)
  {
    PF.FindIsCorrect(pb, ss, es);
  }

  lemma WrittenIsRow(k: Work, pb: PF.Problem, s: PF.State, t: nat, w: nat, j: nat)
    requires SameTask(k, pb, t) && PF.InWord(pb, w, j) && RowIs(pb, s, w, j)
    requires WrittenRow(k, pb, w, j) && PlaceOf(k.width, w, j) in RowsAfter(k, |k.words|)
    ensures s.values[w][j] == RowsAfter(k, |k.words|)[PlaceOf(k.width, w, j)]
  {
    assert PF.Finds(pb, k.part, w, j);
  }

  lemma LoopRowIs(ks: seq<Work>, pb: PF.Problem, width: nat, ss: seq<PF.State>, es: seq<PF.Event>, t: nat, w: nat,
                  j: nat)
    requires PF.IsRun(pb, ss, es) && LoopsOf(ks, pb, width, ss, es) && t < |ks| && PF.InWord(pb, w, j) && j < width
    requires RowIs(pb, ss[|es|], w, j) && PlaceOf(width, w, j) in RowsOf(ks, t)
    ensures ss[|es|].values[w][j] == RowsOf(ks, t)[PlaceOf(width, w, j)]
  {
    LoopRow(ks, pb, width, ss, es, t, w, j);
    WrittenIsRow(ks[t], pb, ss[|es|], t, w, j);
  }

  lemma LoopRowsAre(ks: seq<Work>, pb: PF.Problem, width: nat, ss: seq<PF.State>, es: seq<PF.Event>, w: nat, j: nat)
    requires PF.IsRun(pb, ss, es) && LoopsOf(ks, pb, width, ss, es) && PF.InWord(pb, w, j) && j < width
    requires RowIs(pb, ss[|es|], w, j)
    ensures WorksOk(ks) && OnlyWrites(ks, PlaceOf(width, w, j), ss[|es|].values[w][j])
  {
    forall t | 0 <= t < |ks| && PlaceOf(width, w, j) in RowsOf(ks, t)
      ensures RowsOf(ks, t)[PlaceOf(width, w, j)] == ss[|es|].values[w][j]
    {
      LoopRowIs(ks, pb, width, ss, es, t, w, j);
    }
  }

  /** Whatever the interleaving, the lookup ends with the rows that the loops write. */
  lemma LookupRows(ks: seq<Work>, pb: PF.Problem, width: nat, ss: seq<PF.State>, es: seq<PF.Event>, w: nat, j: nat)
    requires PF.IsRun(pb, ss, es) && PF.AllDone(ss[|es|]) && LoopsOf(ks, pb, width, ss, es)
    requires PF.InWord(pb, w, j) && j < width
    ensures WorksOk(ks) && RowFromLoops(ks, pb, width, ss[|es|], w, j)
  {
    AnswerRow(pb, ss, es, w, j);
    LoopRowsAre(ks, pb, width, ss, es, w, j);
    if PF.IsHit(pb, w, j) && j !in pb.mask[w] && !pb.copying.NoValues? {
      OwnerWrites(ks, pb, width, ss, es, w, j);
    }
  }

  /** And reports as many hits as the loops count. */
  lemma LookupHits(ks: seq<Work>, pb: PF.Problem, width: nat, ss: seq<PF.State>, es: seq<PF.Event>)
    requires PF.IsRun(pb, ss, es) && PF.AllDone(ss[|es|]) && LoopsOf(ks, pb, width, ss, es)
    ensures ss[|es|].total == LoopHits(ks, START)
  {
    var s := ss[|es|];
    RunHits(pb, ss, es, |es|);
    forall t | 0 <= t < |ks|
      ensures s.tasks[t].done && s.tasks[t].hits == FindUpTo(ks[t], START, |ks[t].words|).hits
    {
      TaskEnd(ks[t], pb, ss, es, t);
    }
    LoopHitsSum(ks, START, s.tasks);
  }

  lemma TaskEnd(k: Work, pb: PF.Problem, ss: seq<PF.State>, es: seq<PF.Event>, t: nat)
    requires PF.IsRun(pb, ss, es) && PF.AllDone(ss[|es|]) && SameTask(k, pb, t) && LoadsOfRun(k, ss, es, t)
    ensures t < |ss[|es|].tasks| && ss[|es|].tasks[t].hits == FindUpTo(k, START, |k.words|).hits
  {
    var s := ss[|es|];
    RunHits(pb, ss, es, |es|);
    forall i: nat | i < |k.words|
      ensures LoadOk(k, pb, i)
    {
      assert LoadOfRun(k, ss, es, t, i);
      LoadIsOk(k, pb, ss, es, t, i);
    }
    TaskHits(k, pb, t, START, |k.words|);
    assert PF.TaskOk(pb, s, t) && HitsOk(pb, s, t);
    assert k.words[..|k.words|] == k.words;
  }
}
