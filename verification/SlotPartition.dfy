/** The operations of a host table partition, in place. Each is the sequence of steps of module SlotTable that its batch
    calls for; the keys of other partitions are skipped. */
module SlotPartition {

  import opened EvictionOrder
  import opened SlotMemory
  import opened SlotTable

  /** The operation for key `i` of an update or erase batch. */
  ghost predicate IsUpdateOp(op: Op, key: int, row: seq<int>, mine: bool) {
    op == if mine then UpdateKey(key, row) else Skip
  }

  ghost predicate IsEraseOp(op: Op, key: int, mine: bool) {
    op == if mine then EraseKey(key) else Skip
  }

  ghost predicate IsInsertOp(op: Op, key: int, row: seq<int>, now: int, mine: bool) {
    if mine then op.InsertKey? && op == InsertKey(key, row, now, op.order) else op == Skip
  }

  lemma RunExtend(c: Config, ss: seq<Part>, ops: seq<Op>, op: Op, s': Part)
    requires IsRun(c, ss, ops) && IsStep(c, ss[|ops|], op, s')
    ensures IsRun(c, ss + [s'], ops + [op])
  {
    var ss', ops' := ss + [s'], ops + [op];
    forall i | 0 <= i < |ops'|
      ensures IsStep(c, ss'[i], ops'[i], ss'[i + 1])
    {
      if i < |ops| {
        assert IsStep(c, ss[i], ops[i], ss[i + 1]);
      }
    }
  }

  class Partition {
    const c: Config
    var slotMap: map<int, Slot>
    var available: seq<Slot>
    var buffers: Buffers

    ghost function State(): Part
      reads this
    {
      Part(slotMap, available, buffers)
    }

    ghost predicate Valid()
      reads this
    {
      Inv(c, State())
    }

    constructor (c: Config)
      requires ConfigOk(c)
      ensures Valid() && this.c == c && State() == EMPTY
    {
      this.c := c;
      slotMap, available, buffers := map[], [], [];
      new;
      EmptyInv(c);
    }

    method Clear()
      requires Valid()
      modifies this
      ensures Valid() && State() == Next(c, old(State()), SlotTable.Clear)
    {
      slotMap, available, buffers := map[], [], [];
      EmptyInv(c);
    }

    function Metas(): (m: map<int, int>)
      requires Valid()
      reads this
      ensures m.Keys == slotMap.Keys
    {
      map k | k in slotMap :: MetaAt(c.g, buffers, slotMap[k])
    }

    /** The keys in the order in which they are evicted: arbitrary, or ascending by metadata with ties in any order. */
    method EvictionOrder() returns (order: seq<int>)
      requires Valid()
      ensures IsOrder(c, State(), order)
    {
      order := Enumerate(Metas(), !c.policy.EvictRandom?);
    }

    /** Gives the slots of the first keys of the order back, then halves the counts of the others under LFU. */
    method EvictKeys(order: seq<int>)
      requires Valid() && IsEnumeration(State(), order) && c.resolution <= |order|
      modifies this
      ensures Valid() && State() == Evict(c, old(State()), order)
    {
      ghost var s := State();
      var n := |order| - c.resolution;
      for i := 0 to n
        invariant Inv(c, s) && State() == FreeUpTo(s, order, i)
      {
        FreeUpToOk(c, s, order, i);
        assert SameEntry(c, s, State(), order[i]);
        FreeSlot(order[i]);
      }
      FreeUpToOk(c, s, order, n);
      if c.policy.EvictLfu? {
        HalveCounts(order, n);
      }
      EvictOk(c, s, order);
    }

    method FreeSlot(k: int)
      requires k in slotMap
      modifies this
      ensures State() == Free(old(State()), k)
    {
      available := available + [slotMap[k]];
      slotMap := slotMap - {k};
    }

    method HalveCounts(order: seq<int>, from: nat)
      requires Valid() && c.g.hasMeta && from <= |order|
      requires forall i, j :: 0 <= i < j < |order| ==> order[i] != order[j]
      requires forall i :: from <= i < |order| ==> order[i] in slotMap
      modifies this
      ensures Valid() && State() == HalveUpTo(c, old(State()), order, from, |order|)
    {
      ghost var s := State();
      for i := from to |order|
        invariant Halved(c, s, State(), order, from, i) && State() == HalveUpTo(c, s, order, from, i)
      {
        HalveCount(s, order, from, i);
      }
    }

    method HalveCount(ghost s: Part, order: seq<int>, ghost from: nat, i: nat)
      requires c.g.hasMeta && from <= i < |order| && Halved(c, s, State(), order, from, i)
      requires forall j, k :: 0 <= j < k < |order| ==> order[j] != order[k]
      modifies this
      ensures Halved(c, s, State(), order, from, i + 1)
      ensures old(State()) == HalveUpTo(c, s, order, from, i) ==> State() == HalveUpTo(c, s, order, from, i + 1)
    {
      HalveOne(c, s, State(), order, from, i + 1);
      TagSlot(order[i], MetaAt(c.g, buffers, slotMap[order[i]]) / 2);
    }

    method TagSlot(k: int, meta: int)
      requires Valid() && k in slotMap
      modifies this
      ensures State() == Tag(c, old(State()), k, meta)
    {
      buffers := WriteMeta(c.g, buffers, slotMap[k], meta);
    }

    method PutValue(k: int, value: seq<int>)
      requires Valid() && k in slotMap && |value| <= c.g.maxValue
      modifies this
      ensures Valid() && State() == Put(c, old(State()), k, value)
    {
      PutOk(c, State(), k, value);
      buffers := WriteValue(c.g, buffers, slotMap[k], value);
    }

    /** Allocates a buffer and pushes its slots, the last slot first. */
    method CarveBuffer()
      requires Valid()
      modifies this
      ensures Valid() && State() == Carve(c, old(State()))
    {
      ghost var s := State();
      ghost var all := Carve(c, s).available;
      var b := |buffers|;
      buffers := buffers + [seq(c.g.perBuffer * c.g.stride, _ => 0)];
      var index := c.g.perBuffer;
      while index > 0
        invariant 0 <= index <= c.g.perBuffer
        invariant slotMap == s.slotMap && buffers == Carve(c, s).buffers
        invariant available == all[..|s.available| + c.g.perBuffer - index]
      {
        assert all[|s.available| + (c.g.perBuffer - index)] == Slot(b, index - 1);
        index := index - 1;
        available := available + [Slot(b, index)];
      }
      CarveOk(c, s);
    }

    method MakeSpace() returns (ghost order: seq<int>)
      requires Valid()
      modifies this
      ensures OrderFor(c, old(State()), order) && Valid() && State() == MakeRoom(c, old(State()), order)
    {
      ghost var s := State();
      order := [];
      if |slotMap| >= c.margin {
        var chosen := EvictionOrder();
        order := chosen;
        OrderSize(s, order);
        EvictKeys(chosen);
      }
      if available == [] {
        CarveBuffer();
      }
      MakeRoomOk(c, s, order);
    }

    method StoreValue(k: int, value: seq<int>, now: int)
      requires Valid() && k !in slotMap && |value| <= c.g.maxValue && available != []
      modifies this
      ensures Valid() && State() == Store(c, old(State()), k, value, now)
    {
      ghost var s := State();
      StoreOk(c, s, k, value, now);
      AttachOk(c, s, k);
      var slot := available[|available| - 1];
      available := available[..|available| - 1];
      slotMap := slotMap[k := slot];
      assert State() == Attach(s, k);
      PutValue(k, value);
      TagSlot(k, if c.policy.EvictLru? then now else 1);
    }

    /** One key of an insert. */
    method InsertKey(k: int, value: seq<int>, now: int) returns (ghost order: seq<int>)
      requires Valid() && |value| <= c.g.maxValue
      modifies this
      ensures Valid() && IsStep(c, old(State()), SlotTable.InsertKey(k, value, now, order), State())
    {
      ghost var s := State();
      order := [];
      if k in slotMap {
        PutValue(k, value);
      } else {
        order := MakeSpace();
        MakeRoomOk(c, s, order);
        StoreValue(k, value, now);
      }
    }

    /** Writes the first `valueSize` cells of row `i` to key `i`, for the keys of this partition in order, evicting and
        carving on the way. Refuses a size that does not fit, and then changes nothing. */
    method Insert(keys: seq<int>, rows: seq<seq<int>>, valueSize: int, now: int, me: nat, partOf: int -> nat)
      returns (ok: bool, ghost ss: seq<Part>, ghost ops: seq<Op>)
      requires Valid() && |rows| == |keys| && forall i :: 0 <= i < |rows| ==> |rows[i]| >= valueSize
      modifies this
      ensures Valid() && ok == (0 <= valueSize <= c.g.maxValue)
      ensures !ok ==> State() == old(State())
      ensures ok ==> |ops| == |keys| && IsRun(c, ss, ops) && ss[0] == old(State()) && ss[|keys|] == State()
      ensures ok ==> forall i :: 0 <= i < |keys| ==>
                IsInsertOp(ops[i], keys[i], rows[i][..valueSize], now, partOf(keys[i]) == me)
    {
      ok := 0 <= valueSize <= c.g.maxValue;
      ss, ops := [State()], [];
      if !ok {
        return;
      }
      for i := 0 to |keys|
        invariant Valid() && |ops| == i && IsRun(c, ss, ops) && ss[0] == old(State()) && ss[i] == State()
        invariant forall j :: 0 <= j < i ==>
          IsInsertOp(ops[j], keys[j], rows[j][..valueSize], now, partOf(keys[j]) == me)
      {
        ghost var op := Skip;
        if partOf(keys[i]) == me {
          ghost var order := InsertKey(keys[i], rows[i][..valueSize], now);
          op := SlotTable.InsertKey(keys[i], rows[i][..valueSize], now, order);
        }
        RunExtend(c, ss, ops, op, State());
        ss, ops := ss + [State()], ops + [op];
      }
    }

    /** Writes the rows of the keys that are present. */
    method Update(keys: seq<int>, rows: seq<seq<int>>, valueSize: int, me: nat, partOf: int -> nat)
      returns (ok: bool, ghost ss: seq<Part>, ghost ops: seq<Op>)
      requires Valid() && |rows| == |keys| && forall i :: 0 <= i < |rows| ==> |rows[i]| >= valueSize
      modifies this
      ensures Valid() && ok == (0 <= valueSize <= c.g.maxValue)
      ensures !ok ==> State() == old(State())
      ensures ok ==> |ops| == |keys| && IsRun(c, ss, ops) && ss[0] == old(State()) && ss[|keys|] == State()
      ensures ok ==> forall i :: 0 <= i < |keys| ==>
                IsUpdateOp(ops[i], keys[i], rows[i][..valueSize], partOf(keys[i]) == me)
    {
      ok := 0 <= valueSize <= c.g.maxValue;
      ss, ops := [State()], [];
      if !ok {
        return;
      }
      for i := 0 to |keys|
        invariant Valid() && |ops| == i && IsRun(c, ss, ops) && ss[0] == old(State()) && ss[i] == State()
        invariant forall j :: 0 <= j < i ==>
          IsUpdateOp(ops[j], keys[j], rows[j][..valueSize], partOf(keys[j]) == me)
      {
        ghost var op := if partOf(keys[i]) == me then UpdateKey(keys[i], rows[i][..valueSize]) else Skip;
        ghost var s := State();
        if partOf(keys[i]) == me && keys[i] in slotMap {
          PutValue(keys[i], rows[i][..valueSize]);
        }
        assert IsStep(c, s, op, State());
        RunExtend(c, ss, ops, op, State());
        ss, ops := ss + [State()], ops + [op];
      }
    }

    /** Removes the keys and gives their slots back. */
    method Erase(keys: seq<int>, me: nat, partOf: int -> nat) returns (ghost ss: seq<Part>, ghost ops: seq<Op>)
      requires Valid()
      modifies this
      ensures Valid() && |ops| == |keys| && IsRun(c, ss, ops) && ss[0] == old(State()) && ss[|keys|] == State()
      ensures forall i :: 0 <= i < |keys| ==> IsEraseOp(ops[i], keys[i], partOf(keys[i]) == me)
    {
      ss, ops := [State()], [];
      for i := 0 to |keys|
        invariant Valid() && |ops| == i && IsRun(c, ss, ops) && ss[0] == old(State()) && ss[i] == State()
        invariant forall j :: 0 <= j < i ==> IsEraseOp(ops[j], keys[j], partOf(keys[j]) == me)
      {
        ghost var op := if partOf(keys[i]) == me then EraseKey(keys[i]) else Skip;
        ghost var s := State();
        if partOf(keys[i]) == me && keys[i] in slotMap {
          FreeOk(c, s, keys[i]);
          FreeSlot(keys[i]);
        }
        assert IsStep(c, s, op, State());
        RunExtend(c, ss, ops, op, State());
        ss, ops := ss + [State()], ops + [op];
      }
    }
  }
}
