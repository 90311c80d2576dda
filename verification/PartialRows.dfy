/** When the row of a key is determined by what was written under the key. */
module PartialRows {

  import opened SlotMemory
  import opened SlotTable

  /** A run from the empty partition, with the abstract run beside it, after which `v` is what the writes leave of the
      row of key `k`. */
  ghost predicate Leaves(c: Config, ss: seq<Part>, aa: seq<map<int, seq<int>>>, ops: seq<Op>, k: int, v: seq<int>) {
    && IsRun(c, ss, ops) && IsAbsRun(ss, aa, ops) && ss[0] == EMPTY && aa[0] == map[]
    && k in aa[|ops|] && aa[|ops|][k] == v
  }

  ghost predicate HasRow(c: Config, s: Part, k: int, row: seq<int>) {
    Inv(c, s) && k in s.slotMap && Value(c, s, k) == row
  }

  /** Whatever else happened, a lookup returns the same row. */
  ghost predicate Determined(c: Config, k: int, v: seq<int>) {
    exists row :: AlwaysReturns(c, k, v, row)
  }

  ghost predicate AlwaysReturns(c: Config, k: int, v: seq<int>, row: seq<int>) {
    forall ss, aa, ops :: Leaves(c, ss, aa, ops, k, v) ==> HasRow(c, ss[|ops|], k, row)
  }

  lemma LeavesPrefix(c: Config, ss: seq<Part>, aa: seq<map<int, seq<int>>>, ops: seq<Op>, k: int, v: seq<int>)
    requires ConfigOk(c) && Leaves(c, ss, aa, ops, k, v)
    ensures KnownAt(c, ss[|ops|], k, v)
  {
    EmptyInv(c);
    RunRefines(c, ss, aa, ops, |ops|);
  }

  // ---------------------------------------------------------------------------------------------
  // A slot with any content.

  function Filled(c: Config, b: int): (v: seq<int>)
    ensures |v| == c.g.maxValue
  {
    seq(c.g.maxValue, _ => b)
  }

  lemma NothingToEvict(c: Config, s: Part)
    requires Inv(c, s) && s.slotMap == map[] && s.available != []
    ensures OrderFor(c, s, []) && MakeRoom(c, s, []) == s
  {
  }

  /** A key that was written in full, then erased, leaves its row to the next one. */
  lemma LeavesSlot(c: Config, l: int, b: int) returns (s1: Part, s2: Part)
    requires ConfigOk(c)
    ensures Inv(c, EMPTY) && OrderFor(c, EMPTY, []) && s1 == Insert(c, EMPTY, l, Filled(c, b), 0, [])
    ensures Inv(c, s1) && l in s1.slotMap && s1.slotMap.Keys == {l} && s2 == Free(s1, l)
    ensures Inv(c, s2) && s2.slotMap == map[] && s2.available != []
    ensures var top := s2.available[|s2.available| - 1];
            SlotOk(c.g, s2.buffers, top) && ValueAt(c.g, s2.buffers, top) == Filled(c, b)
  {
    EmptyInv(c);
    InsertOk(c, EMPTY, l, Filled(c, b), 0, []);
    s1 := Insert(c, EMPTY, l, Filled(c, b), 0, []);
    assert s1.slotMap.Keys == {l};
    assert Value(c, s1, l) == Value(c, s1, l)[..c.g.maxValue];
    FreeOk(c, s1, l);
    s2 := Free(s1, l);
    assert s2.slotMap.Keys == {};
  }

  /** The next key gets the slot with what is in it. */
  lemma TakesSlot(c: Config, s: Part, k: int, v: seq<int>, row: seq<int>) returns (s': Part)
    requires Inv(c, s) && s.slotMap == map[] && s.available != [] && |v| <= c.g.maxValue == |row|
    requires var top := s.available[|s.available| - 1];
             SlotOk(c.g, s.buffers, top) && ValueAt(c.g, s.buffers, top) == row
    ensures OrderFor(c, s, []) && s' == Insert(c, s, k, v, 0, [])
    ensures s'.slotMap.Keys == {k} && HasRow(c, s', k, Overlay(row, v))
  {
    NothingToEvict(c, s);
    StoredRow(c, s, k, v, 0);
    StoreOk(c, s, k, v, 0);
    s' := Store(c, s, k, v, 0);
    assert {} + {k} == {k};
  }

  lemma AbsSteps(k: int, v: seq<int>, l: int, row: seq<int>)
    ensures AbsNext(map[], InsertKey(k, v, 0, []), {k}) == map[k := v]
    ensures AbsNext(map[l := row], EraseKey(l), {}) == map[]
  {
  }

  lemma ThreeSteps(c: Config, ss: seq<Part>, aa: seq<map<int, seq<int>>>, ops: seq<Op>)
    requires |ss| == |aa| == 4 && |ops| == 3
    requires IsStep(c, ss[0], ops[0], ss[1]) && IsStep(c, ss[1], ops[1], ss[2]) && IsStep(c, ss[2], ops[2], ss[3])
    requires aa[1] == AbsNext(aa[0], ops[0], ss[1].slotMap.Keys) && aa[2] == AbsNext(aa[1], ops[1], ss[2].slotMap.Keys)
    requires aa[3] == AbsNext(aa[2], ops[2], ss[3].slotMap.Keys)
    ensures IsRun(c, ss, ops) && IsAbsRun(ss, aa, ops)
  {
  }

  /** A run after which the row of `k` is `v` on top of `b`s. */
  lemma RunOver(c: Config, k: int, v: seq<int>, b: int)
    returns (ss: seq<Part>, aa: seq<map<int, seq<int>>>, ops: seq<Op>)
    requires ConfigOk(c) && |v| <= c.g.maxValue
    ensures Leaves(c, ss, aa, ops, k, v) && HasRow(c, ss[|ops|], k, Overlay(Filled(c, b), v))
  {
    var l, row := k + 1, Filled(c, b);
    var s1, s2 := LeavesSlot(c, l, b);
    var s3 := TakesSlot(c, s2, k, v, row);
    var op1, op2, op3 := InsertKey(l, row, 0, []), EraseKey(l), InsertKey(k, v, 0, []);
    assert IsStep(c, EMPTY, op1, s1);
    assert IsStep(c, s1, op2, s2);
    assert IsStep(c, s2, op3, s3);
    AbsSteps(l, row, l, row);
    AbsSteps(k, v, l, row);
    ss, aa, ops := [EMPTY, s1, s2, s3], [map[], map[l := row], map[], map[k := v]], [op1, op2, op3];
    ThreeSteps(c, ss, aa, ops);
  }

  /** The row of a key is determined by what was written under it if and only if the writes cover the row. */
  lemma DeterminedIff(c: Config, k: int, v: seq<int>)
    requires ConfigOk(c)
    ensures Determined(c, k, v) <==> |v| >= c.g.maxValue
  {
    if |v| >= c.g.maxValue {
      forall ss, aa, ops | Leaves(c, ss, aa, ops, k, v)
        ensures HasRow(c, ss[|ops|], k, v)
      {
        LeavesPrefix(c, ss, aa, ops, k, v);
      }
      assert AlwaysReturns(c, k, v, v);
    } else {
      var ss, aa, ops := RunOver(c, k, v, 0);
      var ss', aa', ops' := RunOver(c, k, v, 1);
      var n := c.g.maxValue - 1;
      assert Overlay(Filled(c, 0), v)[n] == 0 && Overlay(Filled(c, 1), v)[n] == 1;
    }
  }
}
