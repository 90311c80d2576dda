/** A batch insert, update or erase on a partitioned table. One task per partition scans the whole batch and acts on its
    own keys, in any interleaving with the others. */
module PartitionedBatch {

  import Common
  import opened SlotMemory
  import opened SlotTable

  datatype Kind = InsertBatch | UpdateBatch | EraseBatch

  datatype Batch = Batch(kind: Kind, keys: seq<int>, rows: seq<seq<int>>, partOf: int -> nat)

  /** `pcs[p]` is the number of keys that partition `p` has scanned. */
  datatype Table = Table(parts: seq<Part>, pcs: seq<nat>)

  /** Partition `p` takes its next key. */
  datatype Event = Event(p: nat, now: int, order: seq<int>)

  ghost predicate BatchOk(c: Config, b: Batch) {
    ConfigOk(c) && |b.rows| == |b.keys| && forall i :: 0 <= i < |b.rows| ==> |b.rows[i]| <= c.g.maxValue
  }

  function OpFor(b: Batch, p: nat, i: nat, now: int, order: seq<int>): Op
    requires i < |b.keys| == |b.rows|
  {
    if b.partOf(b.keys[i]) != p then Skip
    else
      match b.kind
      case InsertBatch => InsertKey(b.keys[i], b.rows[i], now, order)
      case UpdateBatch => UpdateKey(b.keys[i], b.rows[i])
      case EraseBatch => EraseKey(b.keys[i])
  }

  ghost predicate CanStep(c: Config, b: Batch, t: Table, e: Event) {
    && |b.rows| == |b.keys| && e.p < |t.parts| == |t.pcs| && t.pcs[e.p] < |b.keys| && Inv(c, t.parts[e.p])
    && Enabled(c, t.parts[e.p], OpFor(b, e.p, t.pcs[e.p], e.now, e.order))
  }

  ghost function Step(c: Config, b: Batch, t: Table, e: Event): Table
    requires CanStep(c, b, t, e)
  {
    var s := Next(c, t.parts[e.p], OpFor(b, e.p, t.pcs[e.p], e.now, e.order));
    Table(t.parts[e.p := s], t.pcs[e.p := t.pcs[e.p] + 1])
  }

  ghost predicate IsSchedule(c: Config, b: Batch, ts: seq<Table>, es: seq<Event>) {
    && |ts| == |es| + 1 && |ts[0].parts| == |ts[0].pcs|
    && (forall p :: 0 <= p < |ts[0].pcs| ==> ts[0].pcs[p] == 0)
    && forall i :: 0 <= i < |es| ==> IsStep(c, b, ts[i], es[i], ts[i + 1])
  }

  /** A step is defined on consistent partitions; that a schedule meets no others is `ScheduleOk`. */
  ghost predicate IsStep(c: Config, b: Batch, t: Table, e: Event, t': Table) {
    && e.p < |t.parts| == |t.pcs| && t.pcs[e.p] < |b.keys|
    && (Inv(c, t.parts[e.p]) ==> CanStep(c, b, t, e) && t' == Step(c, b, t, e))
  }

  // ---------------------------------------------------------------------------------------------
  // The sequential meaning: a fold over one map, in batch order.

  function SeqNext(b: Batch, a: map<int, seq<int>>, i: nat): map<int, seq<int>>
    requires i < |b.keys| == |b.rows|
  {
    var k, row := b.keys[i], b.rows[i];
    match b.kind
    case InsertBatch => a[k := if k in a then Merge(a[k], row) else row]
    case UpdateBatch => if k in a then a[k := Merge(a[k], row)] else a
    case EraseBatch => a - {k}
  }

  function SeqUpTo(b: Batch, a: map<int, seq<int>>, n: nat): map<int, seq<int>>
    requires n <= |b.keys| == |b.rows|
  {
    if n == 0 then a else SeqNext(b, SeqUpTo(b, a, n - 1), n - 1)
  }

  /** The part of the table that partition `p` is responsible for. */
  function Restrict(b: Batch, a: map<int, seq<int>>, p: nat): map<int, seq<int>> {
    map k | k in a && b.partOf(k) == p :: a[k]
  }

  /** The keys that partition `p` holds before or could get from the batch. */
  ghost function Universe(b: Batch, a: map<int, seq<int>>, p: nat): set<int> {
    (set k | k in a && b.partOf(k) == p) + (set k | k in b.keys && b.partOf(k) == p)
  }

  /** The batch does not make a partition overflow. */
  ghost predicate HasRoom(c: Config, b: Batch, a: map<int, seq<int>>, numParts: nat) {
    b.kind.InsertBatch? ==> forall p: nat :: p < numParts ==> |Universe(b, a, p)| <= c.margin
  }

  // ---------------------------------------------------------------------------------------------
  // Every interleaving has that meaning.

  /** Partition `p` holds what the sequential fold holds after as many keys. */
  ghost predicate PartOk(c: Config, b: Batch, a: map<int, seq<int>>, t: Table, p: nat)
    requires |b.keys| == |b.rows| && p < |t.parts| == |t.pcs|
  {
    && t.pcs[p] <= |b.keys|
    && Refines(c, t.parts[p], Restrict(b, SeqUpTo(b, a, t.pcs[p]), p))
    && t.parts[p].slotMap.Keys <= Universe(b, a, p)
  }

  lemma RestrictNext(b: Batch, a: map<int, seq<int>>, p: nat, i: nat, now: int, order: seq<int>, kept: set<int>)
    requires i < |b.keys| == |b.rows|
    requires b.kind.InsertBatch? ==> Restrict(b, a, p).Keys <= kept
    ensures AbsNext(Restrict(b, a, p), OpFor(b, p, i, now, order), kept) == Restrict(b, SeqNext(b, a, i), p)
  {
    var x, y := AbsNext(Restrict(b, a, p), OpFor(b, p, i, now, order), kept), Restrict(b, SeqNext(b, a, i), p);
    forall k
      ensures (k in x <==> k in y) && (k in x && k in y ==> x[k] == y[k])
    {
      assert k in Restrict(b, a, p) ==> k in Restrict(b, a, p).Keys;
    }
    assert x.Keys == y.Keys;
  }

  lemma PartStep(c: Config, b: Batch, a: map<int, seq<int>>, t: Table, e: Event)
    requires BatchOk(c, b) && CanStep(c, b, t, e) && PartOk(c, b, a, t, e.p) && HasRoom(c, b, a, |t.parts|)
    ensures PartOk(c, b, a, Step(c, b, t, e), e.p)
  {
    var s, p, i := t.parts[e.p], e.p, t.pcs[e.p];
    var op := OpFor(b, p, i, e.now, e.order);
    var m := SeqUpTo(b, a, i);
    var s' := Next(c, s, op);
    StepRefines(c, s, Restrict(b, m, p), op);
    StepKeeps(c, b, a, t, e);
    RestrictNext(b, m, p, i, e.now, e.order, s'.slotMap.Keys);
    assert SeqUpTo(b, a, i + 1) == SeqNext(b, m, i);
  }

  /** Without overflow an insert evicts nothing, and no key outside the universe appears. */
  lemma StepKeeps(c: Config, b: Batch, a: map<int, seq<int>>, t: Table, e: Event)
    requires BatchOk(c, b) && CanStep(c, b, t, e) && PartOk(c, b, a, t, e.p) && HasRoom(c, b, a, |t.parts|)
    ensures var s, s' := t.parts[e.p], Step(c, b, t, e).parts[e.p];
            s'.slotMap.Keys <= Universe(b, a, e.p) && (b.kind.InsertBatch? ==> s.slotMap.Keys <= s'.slotMap.Keys)
  {
    var s, p, i := t.parts[e.p], e.p, t.pcs[e.p];
    var k, op, u := b.keys[i], OpFor(b, p, i, e.now, e.order), Universe(b, a, p);
    if op.InsertKey? {
      InsertKeeps(c, s, k, b.rows[i], e.now, e.order, u);
    } else if op.EraseKey? && k in s.slotMap {
      FreeOk(c, s, k);
    }
  }

  lemma InsertKeeps(c: Config, s: Part, k: int, row: seq<int>, now: int, order: seq<int>, u: set<int>)
    requires Inv(c, s) && |row| <= c.g.maxValue && (k in s.slotMap || OrderFor(c, s, order))
    requires k in u && s.slotMap.Keys <= u && |u| <= c.margin
    ensures Insert(c, s, k, row, now, order).slotMap.Keys == s.slotMap.Keys + {k}
  {
    InsertOk(c, s, k, row, now, order);
    if k !in s.slotMap {
      Common.SubsetSize(s.slotMap.Keys + {k}, u);
      assert |s.slotMap.Keys + {k}| == |s.slotMap.Keys| + 1;
    }
  }

  ghost predicate TableOk(c: Config, b: Batch, a: map<int, seq<int>>, t: Table)
    requires |b.keys| == |b.rows|
  {
    |t.parts| == |t.pcs| && forall p :: 0 <= p < |t.parts| ==> PartOk(c, b, a, t, p)
  }

  /** Before the batch, partition `p` holds its part of the map `a`. */
  ghost predicate Holds(c: Config, b: Batch, a: map<int, seq<int>>, t: Table) {
    forall p :: 0 <= p < |t.parts| ==> Refines(c, t.parts[p], Restrict(b, a, p))
  }

  lemma {:induction false} ScheduleOk(c: Config, b: Batch, a: map<int, seq<int>>, ts: seq<Table>, es: seq<Event>,
                                      n: nat)
    requires BatchOk(c, b) && IsSchedule(c, b, ts, es) && n <= |es|
    requires Holds(c, b, a, ts[0]) && HasRoom(c, b, a, |ts[0].parts|)
    ensures |ts[n].parts| == |ts[0].parts| && TableOk(c, b, a, ts[n])
  {
    if n == 0 {
      forall p | 0 <= p < |ts[0].parts|
        ensures PartOk(c, b, a, ts[0], p)
      {
        assert Refines(c, ts[0].parts[p], Restrict(b, a, p));
        assert ts[0].parts[p].slotMap.Keys == Restrict(b, a, p).Keys;
      }
    } else {
      ScheduleOk(c, b, a, ts, es, n - 1);
      var t, e := ts[n - 1], es[n - 1];
      assert IsStep(c, b, t, e, ts[n]);
      assert PartOk(c, b, a, t, e.p);
      PartStep(c, b, a, t, e);
      forall p | 0 <= p < |ts[n].parts| && p != e.p
        ensures PartOk(c, b, a, ts[n], p)
      {
        assert PartOk(c, b, a, t, p);
      }
    }
  }

  /** Whatever the number of partitions, the partitioning and the interleaving, once every task has scanned the batch
      the table holds exactly what the in-order fold over one map holds. */
  lemma BatchIsSequential(c: Config, b: Batch, a: map<int, seq<int>>, ts: seq<Table>, es: seq<Event>, k: int)
    requires BatchOk(c, b) && IsSchedule(c, b, ts, es) && Holds(c, b, a, ts[0]) && HasRoom(c, b, a, |ts[0].parts|)
    requires forall p :: 0 <= p < |ts[|es|].pcs| ==> ts[|es|].pcs[p] == |b.keys|
    requires b.partOf(k) < |ts[0].parts|
    ensures |ts[|es|].parts| == |ts[0].parts|
    ensures var s, m := ts[|es|].parts[b.partOf(k)], SeqUpTo(b, a, |b.keys|);
            (k in s.slotMap <==> k in m) && (k in m ==> KnownAt(c, s, k, m[k]))
  {
    ScheduleOk(c, b, a, ts, es, |es|);
    var p := b.partOf(k);
    assert PartOk(c, b, a, ts[|es|], p);
    var m := Restrict(b, SeqUpTo(b, a, |b.keys|), p);
    assert k in m <==> k in SeqUpTo(b, a, |b.keys|);
    assert k in m.Keys <==> k in ts[|es|].parts[p].slotMap.Keys;
  }

  /** A key is left exactly as its last occurrence in the batch says, whatever came before. */
  lemma {:induction false} LastWriteWins(b: Batch, a: map<int, seq<int>>, k: int, j: nat, n: nat)
    requires j < n <= |b.keys| == |b.rows| && b.keys[j] == k && forall i :: j < i < n ==> b.keys[i] != k
    ensures var m := SeqUpTo(b, a, n);
            match b.kind
            case InsertBatch => k in m && |b.rows[j]| <= |m[k]| && m[k][..|b.rows[j]|] == b.rows[j]
            case UpdateBatch => k in m ==> |b.rows[j]| <= |m[k]| && m[k][..|b.rows[j]|] == b.rows[j]
            case EraseBatch => k !in m
  {
    if j + 1 < n {
      LastWriteWins(b, a, k, j, n - 1);
    }
  }

  /** No task waits for another: any task that has not scanned the whole batch can take its next key. */
  lemma NoTaskWaits(c: Config, b: Batch, a: map<int, seq<int>>, t: Table, p: nat, now: int)
    requires BatchOk(c, b) && TableOk(c, b, a, t) && HasRoom(c, b, a, |t.parts|) && p < |t.parts| && t.pcs[p] < |b.keys|
    ensures CanStep(c, b, t, Event(p, now, []))
  {
    assert PartOk(c, b, a, t, p);
    var s, k, u := t.parts[p], b.keys[t.pcs[p]], Universe(b, a, p);
    if b.kind.InsertBatch? && b.partOf(k) == p && k !in s.slotMap {
      assert s.slotMap.Keys + {k} <= u;
      Common.SubsetSize(s.slotMap.Keys + {k}, u);
      assert |s.slotMap.Keys + {k}| == |s.slotMap.Keys| + 1;
    }
  }
}
