/** Every run of insert, update, invalidate and clear on one table of the cache refines a map from keys to
    rows. The steps are the values that the methods of SetCache compute. */
module CacheRuns {
  import opened CacheSpec
  import opened CacheUpdate
  import opened Common
  import opened SetCache

  datatype Op =
    | InsertOp(batch: seq<Candidate>, max: nat)
    | UpdateOp(keys: seq<int>, data: seq<Row>, max: nat, combine: (Row, Row) -> Row)
    | InvalidateOp(keys: seq<int>, max: nat)
    | ClearOp

  datatype State = State(tags: seq<int>, counters: seq<real>, dTags: seq<int>, rows: seq<Row>)

  /** What the interface asks of its callers. */
  ghost predicate Allowed(c: Config, s: State, op: Op) {
    match op
    case InsertOp(batch, _) => KeysOk(c, batch)
    case UpdateOp(keys, data, _, _) => KeysUsable(c, keys) && KeysDistinct(keys) && |keys| == |data|
    case InvalidateOp(keys, max) => KeysUsable(c, keys) && |ResidentKeys(c, s.tags, keys)| <= max
    case ClearOp => true
  }

  /** `list` holds the pending entries in some order. */
  ghost predicate ListOf(pending: map<nat, ModifyEntry>, list: seq<ModifyEntry>) {
    && SlotsDistinct(list) && |list| == |pending|
    && (forall j :: 0 <= j < |list| ==> list[j].slot in pending && list[j] == pending[list[j].slot])
    && (forall x :: x in pending ==> exists j :: 0 <= j < |list| && list[j].slot == x)
  }

  /** One operation; `list` is the modify list it hands to the device. */
  ghost predicate Next(c: Config, rate: real, s: State, op: Op, list: seq<ModifyEntry>, s': State) {
    match op
    case InsertOp(batch, max) =>
      Sized(c, s.tags) && Sized(c, s.counters) &&
      var r := InsertUpTo(c, Insertion(s.tags, Decayed(s.counters, rate), map[]), batch, max, |batch|);
      ListOf(r.pending, list) && SlotsBelow(list, |s.dTags|) && SlotsBelow(list, |s.rows|) &&
      s' == State(r.tags, r.counters, Published(Cleared(s.dTags, list, c.sentinel), list),
                  Combined(s.rows, list, Replace()))
    case UpdateOp(keys, data, max, combine) =>
      |keys| == |data| && list == UpdateList(c, s.tags, keys, data, max, |keys|) &&
      SlotsBelow(list, |s.dTags|) && SlotsBelow(list, |s.rows|) &&
      s' == s.(dTags := Published(Cleared(s.dTags, list, c.sentinel), list), rows := Combined(s.rows, list, combine))
    case InvalidateOp(keys, _) =>
      var r := InvalidateUpTo(c, s.tags, keys, |keys|);
      list == r.list && SlotsBelow(list, |s.dTags|) &&
      s' == s.(tags := r.tags, dTags := Cleared(s.dTags, list, c.sentinel))
    case ClearOp =>
      list == [] &&
      s' == State(seq(|s.tags|, _ => c.sentinel), seq(|s.counters|, _ => 0.0), seq(|s.dTags|, _ => c.sentinel), s.rows)
  }

  ghost predicate Inv(c: Config, s: State) {
    HashOk(c) && TagsOk(c, s.tags) && Sized(c, s.counters) && s.dTags == s.tags && |s.rows| == |s.tags|
  }

  lemma TagsDistinctKeys(c: Config, tags: seq<int>)
    requires HashOk(c) && TagsOk(c, tags)
    ensures forall x, y :: (0 <= x < |tags| && 0 <= y < |tags| && tags[x] != c.sentinel && tags[y] != c.sentinel &&
                            KeyAt(c, tags, x) == KeyAt(c, tags, y)) ==> x == y
  {
    forall x, y | 0 <= x < |tags| && 0 <= y < |tags| && tags[x] != c.sentinel && tags[y] != c.sentinel &&
      KeyAt(c, tags, x) == KeyAt(c, tags, y) ensures x == y
    {
      assert Occupied(c, tags, x) && Occupied(c, tags, y);
      MatchUnique(c, tags, KeyAt(c, tags, x), x, y);
    }
  }

  /** The map the table stands for. */
  ghost function Contents(c: Config, tags: seq<int>, rows: seq<Row>): map<int, Row>
    requires HashOk(c) && TagsOk(c, tags) && |rows| == |tags|
  {
    TagsDistinctKeys(c, tags);
    map x | 0 <= x < |tags| && tags[x] != c.sentinel :: KeyAt(c, tags, x) := rows[x]
  }

  lemma ContentsAt(c: Config, tags: seq<int>, rows: seq<Row>, k: int, x: nat)
    requires HashOk(c) && TagsOk(c, tags) && |rows| == |tags| && Usable(c, k) && Matches(c, tags, k, x)
    ensures k in Contents(c, tags, rows) && Contents(c, tags, rows)[k] == rows[x]
  {
    MatchUnique(c, tags, k, x, x);
    TagsDistinctKeys(c, tags);
  }

  lemma ContentsSlot(c: Config, tags: seq<int>, rows: seq<Row>, k: int) returns (x: nat)
    requires HashOk(c) && TagsOk(c, tags) && |rows| == |tags| && k in Contents(c, tags, rows)
    ensures Matches(c, tags, k, x) && Usable(c, k) && tags[x] != c.sentinel && Contents(c, tags, rows)[k] == rows[x]
  {
    x :| 0 <= x < |tags| && tags[x] != c.sentinel && KeyAt(c, tags, x) == k && Contents(c, tags, rows)[k] == rows[x];
    assert Occupied(c, tags, x);
  }

  /** A key is resident exactly when it is in the map. */
  lemma ContentsKeys(c: Config, tags: seq<int>, rows: seq<Row>, k: int)
    requires HashOk(c) && TagsOk(c, tags) && |rows| == |tags| && Usable(c, k)
    ensures k in Contents(c, tags, rows) <==> Resident(c, tags, k)
  {
    if k in Contents(c, tags, rows) { var x := ContentsSlot(c, tags, rows, k); }
    if Resident(c, tags, k) {
      var x :| 0 <= x < |tags| && Matches(c, tags, k, x);
      ContentsAt(c, tags, rows, k, x);
    }
  }

  // ---------------------------------------------------------------------------------------------
  // The abstract steps.

  /** Number of keys of the map among the first `n`. */
  ghost function Present(m: map<int, Row>, keys: seq<int>, n: nat): nat
    requires n <= |keys|
  {
    if n == 0 then 0 else Present(m, keys, n - 1) + if keys[n - 1] in m then 1 else 0
  }

  /** Every key keeps its row, got a row of the batch, or was evicted in favour of a batch key of its set. */
  ghost predicate AbsInsert(c: Config, m: map<int, Row>, batch: seq<Candidate>, m': map<int, Row>) {
    && (forall k :: k in m' ==> (k in m && m'[k] == m[k]) || OfferedRow(batch, k, m'[k]))
    && (forall k :: k in m && k !in m' ==> Displaced(c, batch, k, m'))
  }

  ghost predicate OfferedRow(batch: seq<Candidate>, k: int, row: Row) {
    exists i :: 0 <= i < |batch| && batch[i].key == k && batch[i].row == row
  }

  ghost predicate Displaced(c: Config, batch: seq<Candidate>, k: int, m': map<int, Row>) {
    exists i :: 0 <= i < |batch| && c.setIndex(batch[i].key) == c.setIndex(k) && batch[i].key in m' &&
      m'[batch[i].key] == batch[i].row
  }

  ghost predicate AbsUpdate(m: map<int, Row>, keys: seq<int>, data: seq<Row>, max: nat, combine: (Row, Row) -> Row,
                            m': map<int, Row>)
    requires |keys| == |data|
  {
    && m'.Keys == m.Keys
    && (forall i :: 0 <= i < |keys| && keys[i] in m ==>
          m'[keys[i]] == if Present(m, keys, i) < max then combine(m[keys[i]], data[i]) else m[keys[i]])
    && (forall k :: k in m && k !in keys ==> m'[k] == m[k])
  }

  ghost predicate AbsNext(c: Config, m: map<int, Row>, op: Op, m': map<int, Row>) {
    match op
    case InsertOp(batch, _) => AbsInsert(c, m, batch, m')
    case UpdateOp(keys, data, max, combine) => |keys| == |data| && AbsUpdate(m, keys, data, max, combine, m')
    case InvalidateOp(keys, _) => m' == m - KeySet(keys)
    case ClearOp => m' == map[]
  }

  // ---------------------------------------------------------------------------------------------
  // Refinement, operation by operation.

  lemma InsertInv(c: Config, rate: real, s: State, batch: seq<Candidate>, max: nat, list: seq<ModifyEntry>, s': State)
    requires Inv(c, s) && KeysOk(c, batch) && Next(c, rate, s, InsertOp(batch, max), list, s')
    ensures Inv(c, s') && |list| <= max && SlotsDistinct(list)
  {
    var st := Insertion(s.tags, Decayed(s.counters, rate), map[]);
    InsertUpToOk(c, st, batch, max, |batch|);
    PendingBounded(c, st, batch, max, |batch|);
    PublishSame(s.tags, list, s'.tags, c.sentinel);
  }

  lemma InsertRow(c: Config, rate: real, s: State, batch: seq<Candidate>, max: nat, list: seq<ModifyEntry>, s': State,
                  x: nat)
    requires Inv(c, s) && KeysOk(c, batch) && Next(c, rate, s, InsertOp(batch, max), list, s') && x < |s.tags|
    ensures var p := InsertUpTo(c, Insertion(s.tags, Decayed(s.counters, rate), map[]), batch, max, |batch|).pending;
            |s'.rows| == |s.rows| && |s'.tags| == |s.tags| &&
            if x in p then s'.rows[x] == p[x].src else s'.rows[x] == s.rows[x] && s'.tags[x] == s.tags[x]
  {
    InsertUpToOk(c, Insertion(s.tags, Decayed(s.counters, rate), map[]), batch, max, |batch|);
    CombinedAt(s.rows, list, Replace(), x);
  }

  lemma InsertRefines(c: Config, rate: real, s: State, batch: seq<Candidate>, max: nat, list: seq<ModifyEntry>,
                      s': State)
    requires Inv(c, s) && Inv(c, s') && KeysOk(c, batch) && Next(c, rate, s, InsertOp(batch, max), list, s')
    ensures AbsInsert(c, Contents(c, s.tags, s.rows), batch, Contents(c, s'.tags, s'.rows))
  {
    var r := InsertUpTo(c, Insertion(s.tags, Decayed(s.counters, rate), map[]), batch, max, |batch|);
    InsertUpToOk(c, Insertion(s.tags, Decayed(s.counters, rate), map[]), batch, max, |batch|);
    var m, m' := Contents(c, s.tags, s.rows), Contents(c, s'.tags, s'.rows);
    forall k | k in m' ensures (k in m && m'[k] == m[k]) || OfferedRow(batch, k, m'[k]) {
      var x := ContentsSlot(c, s'.tags, s'.rows, k);
      InsertRow(c, rate, s, batch, max, list, s', x);
      if x in r.pending {
        assert FilledFrom(c, r, batch, x);
      } else {
        ContentsAt(c, s.tags, s.rows, k, x);
      }
    }
    forall k | k in m && k !in m' ensures Displaced(c, batch, k, m') {
      var x := ContentsSlot(c, s.tags, s.rows, k);
      InsertRow(c, rate, s, batch, max, list, s', x);
      if x !in r.pending { ContentsAt(c, s'.tags, s'.rows, k, x); }
      assert FilledFrom(c, r, batch, x);
      var i :| 0 <= i < |batch| && Matches(c, r.tags, batch[i].key, x) && r.pending[x].src == batch[i].row;
      ContentsAt(c, s'.tags, s'.rows, batch[i].key, x);
    }
  }

  lemma UpdateInv(c: Config, rate: real, s: State, op: Op, list: seq<ModifyEntry>, s': State)
    requires Inv(c, s) && op.UpdateOp? && Allowed(c, s, op) && Next(c, rate, s, op, list, s')
    ensures Inv(c, s') && |list| <= op.max && SlotsDistinct(list)
  {
    UpdateListTags(c, s.tags, op.keys, op.data, op.max);
    UpdateListLength(c, s.tags, op.keys, op.data, op.max, |op.keys|);
    PublishSame(s.tags, list, s.tags, c.sentinel);
  }

  lemma {:induction false} PresentIsRank(c: Config, tags: seq<int>, rows: seq<Row>, keys: seq<int>, n: nat)
    requires HashOk(c) && TagsOk(c, tags) && |rows| == |tags| && KeysUsable(c, keys) && n <= |keys|
    ensures Present(Contents(c, tags, rows), keys, n) == Rank(c, tags, keys, n)
  {
    if n > 0 {
      PresentIsRank(c, tags, rows, keys, n - 1);
      ContentsKeys(c, tags, rows, keys[n - 1]);
    }
  }

  lemma UpdateRefinesAt(c: Config, rate: real, s: State, op: Op, list: seq<ModifyEntry>, s': State, k: int)
    requires Inv(c, s) && Inv(c, s') && op.UpdateOp? && Allowed(c, s, op) && Next(c, rate, s, op, list, s')
    requires k in Contents(c, s.tags, s.rows)
    ensures k in Contents(c, s'.tags, s'.rows)
    ensures var m, m' := Contents(c, s.tags, s.rows), Contents(c, s'.tags, s'.rows);
            && (forall i :: 0 <= i < |op.keys| && op.keys[i] == k ==>
                  m'[k] == if Rank(c, s.tags, op.keys, i) < op.max then op.combine(m[k], op.data[i]) else m[k])
            && (k !in op.keys ==> m'[k] == m[k])
  {
    var x := ContentsSlot(c, s.tags, s.rows, k);
    UpdateRowAt(c, s.tags, s.rows, op.keys, op.data, op.max, op.combine, k, x);
    ContentsAt(c, s'.tags, s'.rows, k, x);
  }

  lemma UpdateRefines(c: Config, rate: real, s: State, op: Op, list: seq<ModifyEntry>, s': State)
    requires Inv(c, s) && Inv(c, s') && op.UpdateOp? && Allowed(c, s, op) && Next(c, rate, s, op, list, s')
    ensures AbsUpdate(Contents(c, s.tags, s.rows), op.keys, op.data, op.max, op.combine, Contents(c, s'.tags, s'.rows))
  {
    var m, m' := Contents(c, s.tags, s.rows), Contents(c, s'.tags, s'.rows);
    assert m'.Keys == m.Keys;
    forall i | 0 <= i < |op.keys| && op.keys[i] in m
      ensures m'[op.keys[i]] ==
              if Present(m, op.keys, i) < op.max then op.combine(m[op.keys[i]], op.data[i]) else m[op.keys[i]]
    {
      PresentIsRank(c, s.tags, s.rows, op.keys, i);
      UpdateRefinesAt(c, rate, s, op, list, s', op.keys[i]);
    }
    forall k | k in m && k !in op.keys ensures m'[k] == m[k] {
      UpdateRefinesAt(c, rate, s, op, list, s', k);
    }
  }

  lemma InvalidateInv(c: Config, rate: real, s: State, op: Op, list: seq<ModifyEntry>, s': State)
    requires Inv(c, s) && op.InvalidateOp? && Allowed(c, s, op) && Next(c, rate, s, op, list, s')
    ensures Inv(c, s') && |list| <= op.max && SlotsDistinct(list)
  {
    InvalidateUpToOk(c, s.tags, op.keys, |op.keys|);
    InvalidateClears(c, s.tags, op.keys, |op.keys|);
    InvalidateList(c, s.tags, op.keys, |op.keys|);
    InvalidateCount(c, s.tags, op.keys, |op.keys|);
    assert op.keys[..|op.keys|] == op.keys;
  }

  lemma {:induction false} InvalidateKeepsTags(c: Config, tags: seq<int>, keys: seq<int>, n: nat, x: nat)
    requires n <= |keys| && x < |tags| && InvalidateUpTo(c, tags, keys, n).tags[x] != c.sentinel
    ensures InvalidateUpTo(c, tags, keys, n).tags[x] == tags[x]
  {
    if n > 0 { InvalidateKeepsTags(c, tags, keys, n - 1, x); }
  }

  lemma InvalidateRefines(c: Config, rate: real, s: State, op: Op, list: seq<ModifyEntry>, s': State)
    requires Inv(c, s) && Inv(c, s') && op.InvalidateOp? && Allowed(c, s, op) && Next(c, rate, s, op, list, s')
    ensures Contents(c, s'.tags, s'.rows) == Contents(c, s.tags, s.rows) - KeySet(op.keys)
  {
    var m, m', keys := Contents(c, s.tags, s.rows), Contents(c, s'.tags, s'.rows), op.keys;
    InvalidateUpToOk(c, s.tags, keys, |keys|);
    assert keys[..|keys|] == keys;
    forall k ensures k in m' <==> k in m && k !in KeySet(keys) {
      if k in m {
        var x := ContentsSlot(c, s.tags, s.rows, k);
        ContentsKeys(c, s'.tags, s'.rows, k);
        ContentsKeys(c, s.tags, s.rows, k);
      }
      if k in m' {
        var x := ContentsSlot(c, s'.tags, s'.rows, k);
        ContentsKeys(c, s'.tags, s'.rows, k);
        ContentsKeys(c, s.tags, s.rows, k);
      }
    }
    forall k | k in m' ensures m'[k] == m[k] {
      var x := ContentsSlot(c, s'.tags, s'.rows, k);
      InvalidateKeepsTags(c, s.tags, keys, |keys|, x);
      ContentsAt(c, s.tags, s.rows, k, x);
    }
  }

  // ---------------------------------------------------------------------------------------------
  // Whole runs.

  ghost predicate IsRun(c: Config, rate: real, ss: seq<State>, ops: seq<Op>, lists: seq<seq<ModifyEntry>>) {
    && |ss| == |ops| + 1 && |lists| == |ops| && Inv(c, ss[0])
    && (forall x :: 0 <= x < |ss[0].tags| ==> ss[0].tags[x] == c.sentinel)
    && forall i :: 0 <= i < |ops| ==> Allowed(c, ss[i], ops[i]) && Next(c, rate, ss[i], ops[i], lists[i], ss[i + 1])
  }

  lemma StepInv(c: Config, rate: real, s: State, op: Op, list: seq<ModifyEntry>, s': State)
    requires Inv(c, s) && Allowed(c, s, op) && Next(c, rate, s, op, list, s')
    ensures Inv(c, s') && SlotsDistinct(list) && (!op.ClearOp? ==> |list| <= op.max)
  {
    match op
    case InsertOp(batch, max) => InsertInv(c, rate, s, batch, max, list, s');
    case UpdateOp(_, _, _, _) => UpdateInv(c, rate, s, op, list, s');
    case InvalidateOp(_, _) => InvalidateInv(c, rate, s, op, list, s');
    case ClearOp =>
  }

  lemma StepRefines(c: Config, rate: real, s: State, op: Op, list: seq<ModifyEntry>, s': State)
    requires Inv(c, s) && Inv(c, s') && Allowed(c, s, op) && Next(c, rate, s, op, list, s')
    ensures AbsNext(c, Contents(c, s.tags, s.rows), op, Contents(c, s'.tags, s'.rows))
  {
    match op
    case InsertOp(batch, max) => InsertRefines(c, rate, s, batch, max, list, s');
    case UpdateOp(_, _, _, _) => UpdateRefines(c, rate, s, op, list, s');
    case InvalidateOp(_, _) => InvalidateRefines(c, rate, s, op, list, s');
    case ClearOp =>
  }

  /** In every state of every run no set holds a key twice and the device tags are the host tags. */
  lemma {:induction false} RunInv(c: Config, rate: real, ss: seq<State>, ops: seq<Op>, lists: seq<seq<ModifyEntry>>,
                                  n: nat)
    requires IsRun(c, rate, ss, ops, lists) && n < |ss|
    ensures Inv(c, ss[n])
  {
    if n > 0 {
      RunInv(c, rate, ss, ops, lists, n - 1);
      StepInv(c, rate, ss[n - 1], ops[n - 1], lists[n - 1], ss[n - 1 + 1]);
    }
  }

  /** Every operation of every run takes the map of the cache to the map the interface promises, and hands the
      device at most `max` entries for distinct slots. */
  lemma RunRefines(c: Config, rate: real, ss: seq<State>, ops: seq<Op>, lists: seq<seq<ModifyEntry>>, n: nat)
    requires IsRun(c, rate, ss, ops, lists) && n < |ops|
    ensures Inv(c, ss[n]) && Inv(c, ss[n + 1])
    ensures AbsNext(c, Contents(c, ss[n].tags, ss[n].rows), ops[n], Contents(c, ss[n + 1].tags, ss[n + 1].rows))
    ensures SlotsDistinct(lists[n]) && (!ops[n].ClearOp? ==> |lists[n]| <= ops[n].max)
  {
    RunInv(c, rate, ss, ops, lists, n);
    StepInv(c, rate, ss[n], ops[n], lists[n], ss[n + 1]);
    StepRefines(c, rate, ss[n], ops[n], lists[n], ss[n + 1]);
  }

  /** In every state of every run a lookup agrees with the map. */
  lemma LookupAgrees(c: Config, rate: real, ss: seq<State>, ops: seq<Op>, lists: seq<seq<ModifyEntry>>, n: nat, k: int)
    requires IsRun(c, rate, ss, ops, lists) && n < |ss| && Usable(c, k)
    ensures Inv(c, ss[n])
    ensures var m := Contents(c, ss[n].tags, ss[n].rows);
            Lookup(c, ss[n].dTags, ss[n].rows, k) == if k in m then Some(m[k]) else None
  {
    RunInv(c, rate, ss, ops, lists, n);
    var s := ss[n];
    ContentsKeys(c, s.tags, s.rows, k);
    if Resident(c, s.tags, k) {
      var y :| 0 <= y < |s.tags| && Matches(c, s.tags, k, y) && Lookup(c, s.dTags, s.rows, k) == Some(s.rows[y]);
      ContentsAt(c, s.tags, s.rows, k, y);
    }
  }
}
