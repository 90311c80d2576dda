/** A whole lookup task of the nvHashMap-backed table: its words one after the other, each loaded, looked up with or
    without the key queue, and joined. What a load returns is an input, since other tasks may have joined the word
    before. */
module NvhmTask {

  import opened BitMask
  import opened NvhmFind
  import PF = ParallelFind

  /** `words` are the mask words of a lookup task and `loads` what their loads return. */
  datatype Work = Work(keys: seq<int>, partOf: int -> nat, part: nat, table: map<int, Row>, copying: Copying,
                       width: nat, words: seq<nat>, loads: seq<nat>)

  predicate WorkOk(k: Work) {
    |k.words| == |k.loads| && forall i :: 0 <= i < |k.loads| ==> k.loads[i] < Pow2(k.width)
  }

  function FindOf(k: Work, w: nat): Find {
    Find(k.keys, k.partOf, k.part, k.table, k.copying, w * k.width)
  }

  /** The keys from the start of word `w` on. */
  function Left(k: Work, w: nat): nat {
    if w * k.width <= |k.keys| then |k.keys| - w * k.width else 0
  }

  /** What the lookup of one word gives. */
  function FindWord(k: Work, w: nat, load: nat, o: Output): Output
    requires load < Pow2(k.width)
  {
    var f := FindOf(k, w);
    ProbeAll(f, o.(mask := load), Own(f, Positions(Clear(load, Left(k, w), k.width))))
  }

  /** The words to join, the rows and the hits after the first `n` words. */
  datatype Progress = Progress(out: Output, joins: seq<nat>, hits: int)

  function FindUpTo(k: Work, o: Output, n: nat): (r: Progress)
    requires WorkOk(k) && n <= |k.words|
  {
    if n == 0 then Progress(o, [], 0)
    else
      var r := FindUpTo(k, o, n - 1);
      var o1 := FindWord(k, k.words[n - 1], k.loads[n - 1], r.out);
      Progress(o1, r.joins + [o1.mask], r.hits - Count(k.loads[n - 1]) + Count(o1.mask))
  }

  method LookUpWord(k: Work, w: nat, load: nat, o: Output, length: nat) returns (r: Output)
    requires load < Pow2(k.width)
    ensures r == FindWord(k, w, load, o)
  {
    if length == 0 {
      r := FindPlain(FindOf(k, w), o.(mask := load), Left(k, w), k.width);
    } else {
      r := FindQueued(FindOf(k, w), o.(mask := load), Left(k, w), k.width, length);
    }
  }

  /** A task's loop over its words. Joins, rows, the copy left behind at the end, metadata updates and hits are the
      same for every queue length, none included, and for every interference by other tasks. */
  method FindTask(k: Work, o: Output, length: nat) returns (r: Progress, values: map<nat, Row>)
    requires WorkOk(k)
    ensures r == FindUpTo(k, o, |k.words|) && values == Settled(r.out)
  {
    r := Progress(o, [], 0);
    for i := 0 to |k.words|
      invariant r == FindUpTo(k, o, i)
    {
      var hits := r.hits - Count(k.loads[i]);
      var o1 := LookUpWord(k, k.words[i], k.loads[i], r.out, length);
      r := Progress(o1, r.joins + [o1.mask], hits + Count(o1.mask));
    }
    values := r.out.values;
    if r.out.delayed.Some? {
      values := values[r.out.delayed.value.0 := r.out.delayed.value.1];
    }
  }

  // ---------------------------------------------------------------------------------------------
  // The same joins as those of the interleaved lookup.

  /** The lookup of this task is that of task `t` of the problem, for word `w`. */
  ghost predicate SameWord(k: Work, pb: PF.Problem, t: nat, w: nat) {
    && t < |pb.plan.parts| && k.part == pb.plan.parts[t] && k.partOf == pb.partOf && w < |pb.keys|
    && k.part < |pb.tables| && k.table == pb.tables[k.part]
    && |pb.keys[w]| == (if |k.keys| <= w * k.width then 0
                        else if |k.keys| < w * k.width + k.width then |k.keys| - w * k.width
                        else k.width)
    && (forall j: nat :: j < |pb.keys[w]| ==> KeyAt(FindOf(k, w), j) == pb.keys[w][j])
  }

  /** When a task of the interleaved lookup has probed all positions of its word, its local word is the one that that
      loop joins after loading the same word, whatever the queue length. */
  lemma JoinsSame(k: Work, pb: PF.Problem, s: PF.State, t: nat, load: nat, o: Output)
    requires PF.Inv(pb, s) && t < |s.tasks| && s.tasks[t].inWord && s.tasks[t].todo == {}
    requires s.tasks[t].step < |pb.plan.words[t]| && SameWord(k, pb, t, PF.CurrentWord(pb, s, t))
    requires load < Pow2(k.width) && Bits(load) == s.tasks[t].loaded
    ensures Bits(FindWord(k, PF.CurrentWord(pb, s, t), load, o).mask) == s.tasks[t].mask
  {
    var w, f := PF.CurrentWord(pb, s, t), FindOf(k, PF.CurrentWord(pb, s, t));
    assert PF.TaskOk(pb, s, t) && PF.WordOk(pb, s, k.part, w, s.tasks[t]);
    var mask := FindWord(k, w, load, o).mask;
    forall j: nat
      ensures j in Bits(mask) <==> j in s.tasks[t].mask
    {
      FindFinds(f, o.(mask := load), Left(k, w), k.width, j);
      FoundSame(k, pb, t, w, j);
    }
  }

  lemma FoundSame(k: Work, pb: PF.Problem, t: nat, w: nat, j: nat)
    requires SameWord(k, pb, t, w)
    ensures PF.Finds(pb, k.part, w, j) <==>
            j < Left(k, w) && j < k.width && Mine(FindOf(k, w), j) && KeyAt(FindOf(k, w), j) in k.table
  {
  }
}
