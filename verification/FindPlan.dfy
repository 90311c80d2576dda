/** How a lookup of `n` keys is cut into tasks: one group of tasks per partition, each task a window of mask words that
    starts at an offset depending on the partition and wraps around. */
module FindPlan {

  import Arith
  import opened ParallelFind

  /** The first word of partition `p`, relative to the window of its task. */
  function Scatter(hm: nat, numParts: nat, p: nat): nat
    requires numParts >= 1
  {
    hm * p / numParts
  }

  lemma ScatterOk(hm: nat, numParts: nat, p: nat)
    requires p < numParts && hm >= 1
    ensures Scatter(hm, numParts, p) < hm
  {
    var r := Scatter(hm, numParts, p);
    Arith.DivBound(hm * p, numParts);
    if r >= hm {
      Arith.MulMono(hm, r, numParts);
      Arith.MulMono(p + 1, numParts, hm);
      assert false;
    }
  }

  /** The partitions start evenly spread over the words: the first at word 0, and from one to the next by the
      quotient of the words by the partitions, or one more. */
  lemma StartsSpread(hm: nat, numParts: nat, p: nat)
    requires numParts >= 1
    ensures Scatter(hm, numParts, 0) == 0 && Scatter(hm, numParts, numParts) == hm
    ensures var gap := Scatter(hm, numParts, p + 1) - Scatter(hm, numParts, p);
            gap == hm / numParts || gap == hm / numParts + 1
  {
    var q, r := hm / numParts, hm % numParts;
    var a, b := Scatter(hm, numParts, p), hm * p % numParts;
    Arith.ModUnique(0, numParts, 0, 0);
    Arith.ModUnique(hm * numParts, numParts, hm, 0);
    Arith.DivBound(hm, numParts);
    Arith.DivBound(hm * p, numParts);
    assert hm * (p + 1) == hm * p + hm;
    assert (a + q) * numParts == a * numParts + q * numParts;
    if b + r < numParts {
      Arith.ModUnique(hm * (p + 1), numParts, a + q, b + r);
    } else {
      assert (a + q + 1) * numParts == a * numParts + q * numParts + numParts;
      Arith.ModUnique(hm * (p + 1), numParts, a + q + 1, b + r - numParts);
    }
  }

  /** The number of words in window `u`. */
  function WindowSize(hm: nat, taskSize: nat, u: nat): nat
    requires taskSize >= 1 && u < Arith.CeilDiv(hm, taskSize)
  {
    Arith.CeilDivOk(hm, taskSize, u);
    if taskSize < hm - taskSize * u then taskSize else hm - taskSize * u
  }

  function WordAt(hm: nat, numParts: nat, taskSize: nat, p: nat, u: nat, i: nat): nat
    requires hm >= 1 && numParts >= 1
  {
    (taskSize * u + Scatter(hm, numParts, p) + i) % hm
  }

  /** The place of word `w` in the concatenated windows of partition `p`. */
  function Turn(hm: nat, numParts: nat, p: nat, w: nat): nat
    requires p < numParts && w < hm
  {
    ScatterOk(hm, numParts, p);
    var r := Scatter(hm, numParts, p);
    if w >= r then w - r else w + hm - r
  }

  /** Window `u` at step `i` visits `w` exactly if `(u, i)` is the division of the turn of `w` by the window size. */
  lemma VisitIff(hm: nat, numParts: nat, taskSize: nat, p: nat, w: nat, u: nat, i: nat)
    requires taskSize >= 1 && p < numParts && w < hm
    ensures u < Arith.CeilDiv(hm, taskSize) && i < WindowSize(hm, taskSize, u) &&
            WordAt(hm, numParts, taskSize, p, u, i) == w
            <==> u == Turn(hm, numParts, p, w) / taskSize && i == Turn(hm, numParts, p, w) % taskSize
  {
    var v, r := Turn(hm, numParts, p, w), Scatter(hm, numParts, p);
    ScatterOk(hm, numParts, p);
    Arith.DivBound(v, taskSize);
    if u < Arith.CeilDiv(hm, taskSize) && i < WindowSize(hm, taskSize, u) {
      var z := taskSize * u + i;
      WrapUnique(hm, r, z, w, v);
      if WordAt(hm, numParts, taskSize, p, u, i) == w {
        Arith.ModUnique(v, taskSize, u, i);
      }
    }
    if u == v / taskSize && i == v % taskSize {
      assert taskSize * u + i == v && taskSize * u < hm;
      Arith.CeilDivOk(hm, taskSize, u);
      WrapUnique(hm, r, v, w, v);
    }
  }

  lemma WrapUnique(hm: nat, r: nat, z: nat, w: nat, v: nat)
    requires r < hm && z < hm && w < hm && v == if w >= r then w - r else w + hm - r
    ensures (z + r) % hm == w <==> z == v
  {
    if z + r < hm {
      Arith.ModUnique(z + r, hm, 0, z + r);
    } else {
      Arith.ModUnique(z + r, hm, 1, z + r - hm);
    }
  }

  function TaskCount(hm: nat, numParts: nat, taskSize: nat): nat
    requires taskSize >= 1
  {
    numParts * Arith.CeilDiv(hm, taskSize)
  }

  lemma TaskSplit(hm: nat, numParts: nat, taskSize: nat, t: nat)
    requires taskSize >= 1 && t < TaskCount(hm, numParts, taskSize)
    ensures var c := Arith.CeilDiv(hm, taskSize);
            c >= 1 && hm >= 1 && t / c < numParts && t % c < c && t / c * c + t % c == t
  {
    var c := Arith.CeilDiv(hm, taskSize);
    assert c >= 1 by { assert c == 0 ==> numParts * c == 0; }
    Arith.CeilDivOk(hm, taskSize, 0);
    Arith.DivBound(t, c);
    if t / c >= numParts {
      Arith.MulMono(numParts, t / c, c);
      assert false;
    }
  }

  /** Task `t` serves partition `t / c` and window `t % c`, where `c` is the number of windows. */
  ghost function MakePlan(hm: nat, numParts: nat, taskSize: nat): Plan
    requires taskSize >= 1
  {
    Plan(
      seq(TaskCount(hm, numParts, taskSize), t requires 0 <= t < TaskCount(hm, numParts, taskSize) =>
        PartOfTask(hm, numParts, taskSize, t)),
      seq(TaskCount(hm, numParts, taskSize), t requires 0 <= t < TaskCount(hm, numParts, taskSize) =>
        WordsOfTask(hm, numParts, taskSize, t)),
      map p: nat, w: nat | p < numParts && w < hm :: (p, w) := OwnerAt(hm, numParts, taskSize, p, w))
  }

  ghost function PartOfTask(hm: nat, numParts: nat, taskSize: nat, t: nat): nat
    requires taskSize >= 1 && t < TaskCount(hm, numParts, taskSize)
  {
    TaskSplit(hm, numParts, taskSize, t);
    t / Arith.CeilDiv(hm, taskSize)
  }

  ghost function WordsOfTask(hm: nat, numParts: nat, taskSize: nat, t: nat): seq<nat>
    requires taskSize >= 1 && t < TaskCount(hm, numParts, taskSize)
  {
    TaskSplit(hm, numParts, taskSize, t);
    var c := Arith.CeilDiv(hm, taskSize);
    seq(WindowSize(hm, taskSize, t % c), i requires 0 <= i => WordAt(hm, numParts, taskSize, t / c, t % c, i))
  }

  function TaskIndex(c: nat, p: nat, u: nat): nat {
    p * c + u
  }

  lemma TaskIndexOk(c: nat, numParts: nat, p: nat, u: nat)
    requires u < c && p < numParts
    ensures TaskIndex(c, p, u) < numParts * c && TaskIndex(c, p, u) / c == p && TaskIndex(c, p, u) % c == u
  {
    Arith.MulMono(p + 1, numParts, c);
    Arith.ModUnique(TaskIndex(c, p, u), c, p, u);
  }

  ghost function OwnerAt(hm: nat, numParts: nat, taskSize: nat, p: nat, w: nat): (nat, nat)
    requires taskSize >= 1 && p < numParts && w < hm
  {
    var v := Turn(hm, numParts, p, w);
    Arith.DivBound(v, taskSize);
    (TaskIndex(Arith.CeilDiv(hm, taskSize), p, v / taskSize), v % taskSize)
  }

  lemma OwnerVisits(hm: nat, numParts: nat, taskSize: nat, p: nat, w: nat)
    requires taskSize >= 1 && p < numParts && w < hm
    ensures OwnerOk(MakePlan(hm, numParts, taskSize), p, w)
  {
    var plan, c := MakePlan(hm, numParts, taskSize), Arith.CeilDiv(hm, taskSize);
    var v := Turn(hm, numParts, p, w);
    Arith.DivBound(v, taskSize);
    var u, i := v / taskSize, v % taskSize;
    VisitIff(hm, numParts, taskSize, p, w, u, i);
    var t := TaskIndex(c, p, u);
    TaskIndexOk(c, numParts, p, u);
    assert plan.owner[(p, w)] == (t, i);
    assert plan.parts[t] == p && plan.words[t] == WordsOfTask(hm, numParts, taskSize, t);
  }

  lemma TaskVisits(hm: nat, numParts: nat, taskSize: nat, t: nat, i: nat)
    requires taskSize >= 1 && t < TaskCount(hm, numParts, taskSize) && i < |WordsOfTask(hm, numParts, taskSize, t)|
    ensures MakePlan(hm, numParts, taskSize).words[t][i] < hm &&
            VisitOk(MakePlan(hm, numParts, taskSize), numParts, t, i)
  {
    TaskSplit(hm, numParts, taskSize, t);
    var c := Arith.CeilDiv(hm, taskSize);
    var p, u := t / c, t % c;
    var w := WordAt(hm, numParts, taskSize, p, u, i);
    VisitIff(hm, numParts, taskSize, p, w, u, i);
    assert OwnerAt(hm, numParts, taskSize, p, w) == (t, i);
  }

  /** Every pair of a partition and a mask word is visited by exactly one step of one task. */
  lemma PlanIsExact(hm: nat, numParts: nat, taskSize: nat)
    requires taskSize >= 1
    ensures PlanOk(MakePlan(hm, numParts, taskSize), numParts, hm)
  {
    var plan := MakePlan(hm, numParts, taskSize);
    forall t, i | 0 <= t < |plan.words| && 0 <= i < |plan.words[t]|
      ensures plan.words[t][i] < hm && VisitOk(plan, numParts, t, i)
    {
      TaskVisits(hm, numParts, taskSize, t, i);
    }
    forall p, w | 0 <= p < numParts && 0 <= w < hm
      ensures OwnerOk(plan, p, w)
    {
      OwnerVisits(hm, numParts, taskSize, p, w);
    }
  }

  // ---------------------------------------------------------------------------------------------
  // The whole lookup, by key position.

  /** Cuts a sequence into rows of `width` elements; the last row may be shorter. */
  ghost function Rows<T>(xs: seq<T>, width: nat): seq<seq<T>>
    requires width >= 1
  {
    seq(Arith.CeilDiv(|xs|, width), w requires 0 <= w < Arith.CeilDiv(|xs|, width) => RowOf(xs, width, w))
  }

  ghost function RowOf<T>(xs: seq<T>, width: nat, w: nat): seq<T>
    requires width >= 1 && w < Arith.CeilDiv(|xs|, width)
  {
    Arith.CeilDivOk(|xs|, width, w);
    Slice(xs, w * width, width)
  }

  function Slice<T>(xs: seq<T>, from: nat, width: nat): (r: seq<T>)
    requires from < |xs|
  {
    if from + width < |xs| then xs[from..from + width] else xs[from..]
  }

  /** Element `i` is at column `i % width` of row `i / width`. */
  lemma RowsAt<T>(xs: seq<T>, width: nat, i: nat)
    requires width >= 1 && i < |xs|
    ensures i / width < |Rows(xs, width)| && i % width < |Rows(xs, width)[i / width]|
    ensures Rows(xs, width)[i / width][i % width] == xs[i]
  {
    Arith.DivBound(i, width);
    Arith.CeilDivOk(|xs|, width, i / width);
    assert Rows(xs, width)[i / width] == Slice(xs, i / width * width, width);
  }

  lemma RowsShape<S, T>(xs: seq<S>, ys: seq<T>, width: nat)
    requires width >= 1 && |xs| == |ys|
    ensures |Rows(xs, width)| == |Rows(ys, width)|
    ensures forall w :: 0 <= w < |Rows(xs, width)| ==> |Rows(xs, width)[w]| == |Rows(ys, width)[w]|
  {
    forall w | 0 <= w < |Rows(xs, width)|
      ensures |Rows(xs, width)[w]| == |Rows(ys, width)[w]|
    {
      Arith.CeilDivOk(|xs|, width, w);
      assert Rows(xs, width)[w] == Slice(xs, w * width, width) && Rows(ys, width)[w] == Slice(ys, w * width, width);
    }
  }

  /** A lookup of `keys` in a table of partitions, with mask words of `width` bits. */
  datatype Lookup = Lookup(
    keys: seq<int>,
    width: nat,
    taskSize: nat,
    partOf: int -> nat,
    tables: seq<map<int, Row>>,
    mask: seq<set<nat>>,
    values: seq<Row>,
    copying: Copying)

  ghost predicate LookupOk(q: Lookup) {
    && q.width >= 1 && q.taskSize >= 1 && |q.mask| == Arith.CeilDiv(|q.keys|, q.width) && |q.values| == |q.keys|
    && forall k :: q.partOf(k) < |q.tables|
  }

  ghost function MakeProblem(q: Lookup): Problem
    requires LookupOk(q)
  {
    Problem(Rows(q.keys, q.width), q.partOf, q.tables, q.mask, Rows(q.values, q.width), q.copying,
            MakePlan(Arith.CeilDiv(|q.keys|, q.width), |q.tables|, q.taskSize))
  }

  lemma ProblemIsOk(q: Lookup)
    requires LookupOk(q)
    ensures ProblemOk(MakeProblem(q))
  {
    var pb := MakeProblem(q);
    PlanIsExact(Arith.CeilDiv(|q.keys|, q.width), |q.tables|, q.taskSize);
    RowsShape(q.values, q.keys, q.width);
    forall w: nat, j: nat | InWord(pb, w, j)
      ensures PartAt(pb, w, j) < |pb.tables|
    {
      var k := pb.keys[w][j];
      assert q.partOf(k) < |q.tables|;
    }
  }

  /** The answer for key `i`, at bit `j` of word `w`: the bit is on exactly if it was on or the key is resident in its
      own partition, and the row is that of a newly found key or as before. */
  ghost predicate Answer(q: Lookup, s: State, i: nat, w: nat, j: nat)
    requires LookupOk(q) && i < |q.keys|
  {
    q.partOf(q.keys[i]) < |q.tables| &&
    var table := q.tables[q.partOf(q.keys[i])];
    && w < |s.mask| == |q.mask| && w < |s.values| && j < |s.values[w]|
    && (j in s.mask[w] <==> j in q.mask[w] || q.keys[i] in table)
    && s.values[w][j] == (if q.keys[i] in table && j !in q.mask[w] && !q.copying.NoValues? then table[q.keys[i]]
                          else q.values[i])
  }

  /** For any number of keys, mask width, task size, partitioning and interleaving, every key gets its answer and the
      reported number of hits is the number of bits turned on. */
  lemma LookupIsCorrect(q: Lookup, ss: seq<State>, es: seq<Event>, i: nat)
    requires LookupOk(q) && IsRun(MakeProblem(q), ss, es) && AllDone(ss[|es|]) && i < |q.keys|
    ensures Answer(q, ss[|es|], i, i / q.width, i % q.width)
    ensures ss[|es|].total == BitCount(ss[|es|].mask) - BitCount(q.mask)
  {
    var pb := MakeProblem(q);
    FindIsCorrect(pb, ss, es);
    Arith.DivBound(i, q.width);
    KeyPosition(q, i);
    AnswerFrom(q, pb, ss[|es|], i, i / q.width, i % q.width);
  }

  lemma KeyPosition(q: Lookup, i: nat)
    requires LookupOk(q) && i < |q.keys|
    ensures var pb, w, j := MakeProblem(q), i / q.width, i % q.width;
            InWord(pb, w, j) && pb.keys[w][j] == q.keys[i] &&
            w < |pb.values| && j < |pb.values[w]| && pb.values[w][j] == q.values[i]
  {
    RowsAt(q.keys, q.width, i);
    RowsAt(q.values, q.width, i);
  }

  lemma AnswerFrom(q: Lookup, pb: Problem, s: State, i: nat, w: nat, j: nat)
    requires LookupOk(q) && i < |q.keys| && pb.tables == q.tables && pb.partOf == q.partOf && pb.mask == q.mask
    requires pb.copying == q.copying && ProblemOk(pb) && IsAnswer(pb, s)
    requires InWord(pb, w, j) && pb.keys[w][j] == q.keys[i] && pb.values[w][j] == q.values[i]
    ensures Answer(q, s, i, w, j)
  {
  }
}
