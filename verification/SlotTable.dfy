/** One partition of a host table: a map from keys to slots, a stack of free slots, and the buffers the slots are carved
    from. */
module SlotTable {

  import Arith
  import opened SlotMemory

  datatype Policy = EvictRandom | EvictLru | EvictLfu

  /** `margin` is the number of entries at which a new key triggers an eviction, `resolution` the number it leaves. */
  datatype Config = Config(g: Geometry, margin: nat, resolution: nat, policy: Policy)

  predicate ConfigOk(c: Config) {
    GeometryOk(c.g) && (c.g.hasMeta <==> !c.policy.EvictRandom?) && c.g.perBuffer >= 1 && c.resolution <= c.margin
  }

  datatype Part = Part(slotMap: map<int, Slot>, available: seq<Slot>, buffers: Buffers)

  const EMPTY := Part(map[], [], [])

  // ---------------------------------------------------------------------------------------------
  // Slot conservation.

  predicate Distinct(slots: seq<Slot>) {
    forall i, j :: 0 <= i < j < |slots| ==> slots[i] != slots[j]
  }

  ghost predicate Mapped(s: Part, slot: Slot) {
    exists k :: k in s.slotMap && s.slotMap[k] == slot
  }

  /** The free and the mapped slots are disjoint, no slot is free twice or mapped twice, and together they are exactly
      the slots of the buffers. */
  ghost predicate Conserved(c: Config, s: Part) {
    && (forall slot :: slot in s.available ==> SlotOk(c.g, s.buffers, slot) && !Mapped(s, slot))
    && (forall k :: k in s.slotMap ==> SlotOk(c.g, s.buffers, s.slotMap[k]))
    && Distinct(s.available)
    && (forall k, l :: k in s.slotMap && l in s.slotMap && k != l ==> s.slotMap[k] != s.slotMap[l])
    && (forall slot :: SlotOk(c.g, s.buffers, slot) ==> slot in s.available || Mapped(s, slot))
  }

  ghost predicate Inv(c: Config, s: Part) {
    ConfigOk(c) && BuffersOk(c.g, s.buffers) && Conserved(c, s)
  }

  function Value(c: Config, s: Part, k: int): (v: seq<int>)
    requires GeometryOk(c.g) && BuffersOk(c.g, s.buffers) && k in s.slotMap && SlotOk(c.g, s.buffers, s.slotMap[k])
    ensures |v| == c.g.maxValue
  {
    ValueAt(c.g, s.buffers, s.slotMap[k])
  }

  function Meta(c: Config, s: Part, k: int): int
    requires GeometryOk(c.g) && BuffersOk(c.g, s.buffers) && k in s.slotMap && SlotOk(c.g, s.buffers, s.slotMap[k])
  {
    MetaAt(c.g, s.buffers, s.slotMap[k])
  }

  /** Key `k` has the same value and metadata in both states. */
  ghost predicate SameEntry(c: Config, s: Part, s': Part, k: int) {
    && Inv(c, s) && Inv(c, s') && k in s.slotMap && k in s'.slotMap
    && Value(c, s', k) == Value(c, s, k) && Meta(c, s', k) == Meta(c, s, k)
  }

  // ---------------------------------------------------------------------------------------------
  // Writing through a mapped slot.

  ghost function Put(c: Config, s: Part, k: int, value: seq<int>): (s': Part)
    requires Inv(c, s) && k in s.slotMap && |value| <= c.g.maxValue
  {
    s.(buffers := WriteValue(c.g, s.buffers, s.slotMap[k], value))
  }

  lemma PutOk(c: Config, s: Part, k: int, value: seq<int>)
    requires Inv(c, s) && k in s.slotMap && |value| <= c.g.maxValue
    ensures Inv(c, Put(c, s, k, value))
    ensures Value(c, Put(c, s, k, value), k) == Overlay(Value(c, s, k), value)
    ensures Meta(c, Put(c, s, k, value), k) == Meta(c, s, k)
    ensures forall l :: l in s.slotMap && l != k ==> SameEntry(c, s, Put(c, s, k, value), l)
  {
    var s' := Put(c, s, k, value);
    SameSlots(c, s, s');
    WriteValueAt(c.g, s.buffers, s.slotMap[k], value, s.slotMap[k]);
    forall l | l in s.slotMap && l != k
      ensures SameEntry(c, s, s', l)
    {
      WriteValueAt(c.g, s.buffers, s.slotMap[k], value, s.slotMap[l]);
    }
  }

  ghost function Tag(c: Config, s: Part, k: int, meta: int): (s': Part)
    requires Inv(c, s) && k in s.slotMap
  {
    s.(buffers := WriteMeta(c.g, s.buffers, s.slotMap[k], meta))
  }

  lemma TagOk(c: Config, s: Part, k: int, meta: int)
    requires Inv(c, s) && k in s.slotMap
    ensures Inv(c, Tag(c, s, k, meta))
    ensures Value(c, Tag(c, s, k, meta), k) == Value(c, s, k)
    ensures c.g.hasMeta ==> Meta(c, Tag(c, s, k, meta), k) == meta
    ensures forall l :: l in s.slotMap && l != k ==> SameEntry(c, s, Tag(c, s, k, meta), l)
  {
    var s' := Tag(c, s, k, meta);
    SameSlots(c, s, s');
    WriteMetaAt(c.g, s.buffers, s.slotMap[k], meta, s.slotMap[k]);
    forall l | l in s.slotMap && l != k
      ensures SameEntry(c, s, s', l)
    {
      WriteMetaAt(c.g, s.buffers, s.slotMap[k], meta, s.slotMap[l]);
    }
  }

  /** Conservation speaks of the slots only, not of what is in them. */
  lemma SameSlots(c: Config, s: Part, s': Part)
    requires Inv(c, s) && s'.slotMap == s.slotMap && s'.available == s.available
    requires |s'.buffers| == |s.buffers| && BuffersOk(c.g, s'.buffers)
    ensures Inv(c, s')
  {
    forall slot
      ensures Mapped(s', slot) == Mapped(s, slot) && SlotOk(c.g, s'.buffers, slot) == SlotOk(c.g, s.buffers, slot)
    {
    }
  }

  // ---------------------------------------------------------------------------------------------
  // Freeing, carving and taking slots.

  ghost function Free(s: Part, k: int): Part
    requires k in s.slotMap
  {
    s.(available := s.available + [s.slotMap[k]], slotMap := s.slotMap - {k})
  }

  lemma FreeOk(c: Config, s: Part, k: int)
    requires Inv(c, s) && k in s.slotMap
    ensures Inv(c, Free(s, k))
    ensures Free(s, k).slotMap.Keys == s.slotMap.Keys - {k}
    ensures forall l :: l in s.slotMap && l != k ==> SameEntry(c, s, Free(s, k), l)
  {
    var s', slot := Free(s, k), s.slotMap[k];
    forall x
      ensures Mapped(s', x) <==> Mapped(s, x) && x != slot
    {
      if Mapped(s, x) && x != slot {
        var l :| l in s.slotMap && s.slotMap[l] == x;
        assert l in s'.slotMap && s'.slotMap[l] == x;
      }
    }
    assert Mapped(s, slot);
    assert s'.available[|s.available|] == slot;
    forall x | SlotOk(c.g, s'.buffers, x)
      ensures x in s'.available || Mapped(s', x)
    {
      assert x in s.available ==> x in s'.available;
    }
  }

  /** A new buffer; its slots go on the stack of free slots with the first slot on top. */
  ghost function Carve(c: Config, s: Part): Part {
    s.(buffers := s.buffers + [seq(c.g.perBuffer * c.g.stride, _ => 0)],
       available := s.available + seq(c.g.perBuffer, i => NewSlot(c, s, i)))
  }

  function NewSlot(c: Config, s: Part, i: int): Slot {
    Slot(|s.buffers|, if 0 <= i < c.g.perBuffer then c.g.perBuffer - 1 - i else 0)
  }

  lemma CarveOk(c: Config, s: Part)
    requires Inv(c, s)
    ensures Inv(c, Carve(c, s)) && Carve(c, s).available != []
    ensures forall l :: l in s.slotMap ==> SameEntry(c, s, Carve(c, s), l)
  {
    var s', n := Carve(c, s), |s.available|;
    forall i | 0 <= i < |s'.available|
      ensures s'.available[i] == if i < n then s.available[i] else NewSlot(c, s, i - n)
    {
    }
    forall i, j | 0 <= i < j < |s'.available|
      ensures s'.available[i] != s'.available[j]
    {
      assert i < n ==> s.available[i] in s.available;
    }
    forall x
      ensures Mapped(s', x) == Mapped(s, x)
    {
    }
    forall x | SlotOk(c.g, s'.buffers, x)
      ensures x in s'.available || Mapped(s', x)
    {
      if x.buffer == |s.buffers| {
        assert s'.available[n + (c.g.perBuffer - 1 - x.index)] == x;
      } else {
        assert SlotOk(c.g, s.buffers, x) && (x in s.available ==> x in s'.available);
      }
    }
  }

  /** Maps a new key to the slot on top of the stack. */
  ghost function Attach(s: Part, k: int): Part
    requires s.available != []
  {
    var n := |s.available| - 1;
    s.(available := s.available[..n], slotMap := s.slotMap[k := s.available[n]])
  }

  lemma AttachOk(c: Config, s: Part, k: int)
    requires Inv(c, s) && k !in s.slotMap && s.available != []
    ensures Inv(c, Attach(s, k))
    ensures forall l :: l in s.slotMap ==> SameEntry(c, s, Attach(s, k), l)
  {
    var s', n := Attach(s, k), |s.available| - 1;
    var slot := s.available[n];
    assert s'.slotMap[k] == slot && slot in s.available;
    forall x
      ensures Mapped(s', x) <==> Mapped(s, x) || x == slot
    {
      if Mapped(s, x) {
        var l :| l in s.slotMap && s.slotMap[l] == x;
        assert l in s'.slotMap && s'.slotMap[l] == x;
      }
    }
    forall x | SlotOk(c.g, s'.buffers, x)
      ensures x in s'.available || Mapped(s', x)
    {
      if x in s.available && x != slot {
        var i :| 0 <= i < |s.available| && s.available[i] == x;
        assert s'.available[i] == x;
      }
    }
  }

  // ---------------------------------------------------------------------------------------------
  // Eviction.

  ghost predicate IsEnumeration(s: Part, order: seq<int>) {
    && (forall i, j :: 0 <= i < j < |order| ==> order[i] != order[j])
    && (forall i :: 0 <= i < |order| ==> order[i] in s.slotMap)
    && (forall k :: k in s.slotMap ==> k in order)
  }

  /** An order in which keys may be evicted: any, or ascending by metadata where the policy keeps it. */
  ghost predicate IsOrder(c: Config, s: Part, order: seq<int>) {
    && Inv(c, s) && IsEnumeration(s, order)
    && (!c.policy.EvictRandom? ==> forall i, j :: 0 <= i < j < |order| ==> Meta(c, s, order[i]) <= Meta(c, s, order[j]))
  }

  lemma {:induction false} EnumerationSize(order: seq<int>)
    requires forall i, j :: 0 <= i < j < |order| ==> order[i] != order[j]
    ensures |set k | k in order| == |order|
  {
    if order != [] {
      var n := |order| - 1;
      EnumerationSize(order[..n]);
      assert (set k | k in order) == (set k | k in order[..n]) + {order[n]};
    }
  }

  lemma OrderSize(s: Part, order: seq<int>)
    requires IsEnumeration(s, order)
    ensures |order| == |s.slotMap|
  {
    EnumerationSize(order);
    forall k | k in order
      ensures k in s.slotMap
    {
      var i :| 0 <= i < |order| && order[i] == k;
    }
    var ks := set k | k in order;
    forall k | k in s.slotMap.Keys
      ensures k in ks
    {
      assert k in order;
    }
    assert ks == s.slotMap.Keys;
  }

  ghost function FreeUpTo(s: Part, order: seq<int>, n: nat): Part
    requires n <= |order|
    decreases n, 0
  {
    if n == 0 then s else FreeNth(s, order, n - 1)
  }

  ghost function FreeNth(s: Part, order: seq<int>, i: nat): Part
    requires i < |order|
    decreases i, 1
  {
    var s1 := FreeUpTo(s, order, i);
    if order[i] in s1.slotMap then Free(s1, order[i]) else s1
  }

  lemma {:induction false} FreeUpToOk(c: Config, s: Part, order: seq<int>, n: nat)
    requires Inv(c, s) && IsEnumeration(s, order) && n <= |order|
    ensures Inv(c, FreeUpTo(s, order, n))
    ensures forall i :: 0 <= i < n ==> order[i] !in FreeUpTo(s, order, n).slotMap
    ensures forall i :: n <= i < |order| ==> SameEntry(c, s, FreeUpTo(s, order, n), order[i])
    ensures |FreeUpTo(s, order, n).slotMap| == |s.slotMap| - n
    ensures FreeUpTo(s, order, n).slotMap.Keys <= s.slotMap.Keys
  {
    if n > 0 {
      FreeUpToOk(c, s, order, n - 1);
      var s1, k := FreeUpTo(s, order, n - 1), order[n - 1];
      FreeOk(c, s1, k);
    }
  }

  ghost function HalveUpTo(c: Config, s: Part, order: seq<int>, from: nat, n: nat): Part
    requires from <= n <= |order|
    decreases n - from, 0
  {
    if n == from then s else HalveNth(c, s, order, from, n - 1)
  }

  ghost function HalveNth(c: Config, s: Part, order: seq<int>, from: nat, i: nat): Part
    requires from <= i < |order|
    decreases i - from, 1
  {
    var s1 := HalveUpTo(c, s, order, from, i);
    if Inv(c, s1) && order[i] in s1.slotMap then Tag(c, s1, order[i], Meta(c, s1, order[i]) / 2) else s1
  }

  /** In `s'` the metadata of the keys at positions before `n` is half that in `s`; nothing else differs. */
  ghost predicate Halved(c: Config, s: Part, s': Part, order: seq<int>, from: nat, n: nat) {
    && Inv(c, s) && Inv(c, s') && s'.slotMap == s.slotMap && s'.available == s.available
    && forall i :: from <= i < |order| ==> HalvedAt(c, s, s', order[i], i < n)
  }

  ghost predicate HalvedAt(c: Config, s: Part, s': Part, k: int, halved: bool) {
    && Inv(c, s) && Inv(c, s') && k in s.slotMap && k in s'.slotMap && Value(c, s', k) == Value(c, s, k)
    && Meta(c, s', k) == if halved then Meta(c, s, k) / 2 else Meta(c, s, k)
  }

  lemma {:induction false} HalveUpToOk(c: Config, s: Part, order: seq<int>, from: nat, n: nat)
    requires Inv(c, s) && c.g.hasMeta && from <= n <= |order|
    requires forall i, j :: 0 <= i < j < |order| ==> order[i] != order[j]
    requires forall i :: from <= i < |order| ==> order[i] in s.slotMap
    ensures Halved(c, s, HalveUpTo(c, s, order, from, n), order, from, n)
    decreases n - from
  {
    if n > from {
      HalveUpToOk(c, s, order, from, n - 1);
      var s1, k := HalveUpTo(c, s, order, from, n - 1), order[n - 1];
      HalveOne(c, s, s1, order, from, n);
    }
  }

  lemma HalveOne(c: Config, s: Part, s1: Part, order: seq<int>, from: nat, n: nat)
    requires c.g.hasMeta && from < n <= |order| && Halved(c, s, s1, order, from, n - 1)
    requires forall i, j :: 0 <= i < j < |order| ==> order[i] != order[j]
    ensures order[n - 1] in s1.slotMap
    ensures Halved(c, s, Tag(c, s1, order[n - 1], Meta(c, s1, order[n - 1]) / 2), order, from, n)
  {
    var k := order[n - 1];
    assert HalvedAt(c, s, s1, k, false);
    TagOk(c, s1, k, Meta(c, s1, k) / 2);
    var s' := Tag(c, s1, k, Meta(c, s1, k) / 2);
    forall i | from <= i < |order|
      ensures HalvedAt(c, s, s', order[i], i < n)
    {
      assert HalvedAt(c, s, s1, order[i], i < n - 1);
      assert i != n - 1 ==> SameEntry(c, s1, s', order[i]);
    }
  }

  /** Frees the first keys of the order until `resolution` keys remain; under LFU halves the counts of those. */
  ghost function Evict(c: Config, s: Part, order: seq<int>): Part
    requires c.resolution <= |order|
  {
    var n := |order| - c.resolution;
    var s1 := FreeUpTo(s, order, n);
    if c.policy.EvictLfu? then HalveUpTo(c, s1, order, n, |order|) else s1
  }

  /** What an eviction does to the key at position `i` of the order. */
  ghost predicate EvictedAt(c: Config, s: Part, s': Part, order: seq<int>, i: nat)
    requires i < |order| && c.resolution <= |order|
  {
    if i < |order| - c.resolution then order[i] !in s'.slotMap
    else HalvedAt(c, s, s', order[i], c.policy.EvictLfu?)
  }

  lemma EvictOk(c: Config, s: Part, order: seq<int>)
    requires Inv(c, s) && IsEnumeration(s, order) && c.resolution <= |order|
    ensures Inv(c, Evict(c, s, order)) && |Evict(c, s, order).slotMap| == c.resolution
    ensures Evict(c, s, order).slotMap.Keys <= s.slotMap.Keys
    ensures forall i :: 0 <= i < |order| ==> EvictedAt(c, s, Evict(c, s, order), order, i)
  {
    var n := |order| - c.resolution;
    var s1 := FreeUpTo(s, order, n);
    OrderSize(s, order);
    FreeUpToOk(c, s, order, n);
    if c.policy.EvictLfu? {
      forall i | n <= i < |order|
        ensures order[i] in s1.slotMap
      {
        assert SameEntry(c, s, s1, order[i]);
      }
      HalveUpToOk(c, s1, order, n, |order|);
      var s' := Evict(c, s, order);
      forall i | n <= i < |order|
        ensures HalvedAt(c, s, s', order[i], true)
      {
        assert SameEntry(c, s, s1, order[i]) && HalvedAt(c, s1, s', order[i], true);
      }
    }
  }

  /** Under LRU and LFU no evicted key has larger metadata than a surviving one. */
  lemma EvictsSmallest(c: Config, s: Part, order: seq<int>, k: int, l: int)
    requires IsOrder(c, s, order) && !c.policy.EvictRandom? && c.resolution <= |order|
    requires k in s.slotMap && k !in Evict(c, s, order).slotMap && l in Evict(c, s, order).slotMap
    ensures l in s.slotMap && Meta(c, s, k) <= Meta(c, s, l)
  {
    EvictOk(c, s, order);
    var i: nat :| i < |order| && order[i] == k;
    var j: nat :| j < |order| && order[j] == l;
    assert EvictedAt(c, s, Evict(c, s, order), order, i) && EvictedAt(c, s, Evict(c, s, order), order, j);
  }

  // ---------------------------------------------------------------------------------------------
  // Inserting a key.

  /** A full partition comes with an eviction order. */
  ghost predicate OrderFor(c: Config, s: Part, order: seq<int>) {
    |s.slotMap| >= c.margin ==> IsOrder(c, s, order)
  }

  /** The state in which a new key gets its slot: after an eviction if the partition is full, and with a new buffer if
      no slot is free. */
  ghost function MakeRoom(c: Config, s: Part, order: seq<int>): Part
    requires OrderFor(c, s, order) && c.resolution <= c.margin
  {
    var s1 := if |s.slotMap| >= c.margin then OrderSize(s, order); Evict(c, s, order) else s;
    if s1.available == [] then Carve(c, s1) else s1
  }

  lemma MakeRoomOk(c: Config, s: Part, order: seq<int>)
    requires Inv(c, s) && OrderFor(c, s, order)
    ensures Inv(c, MakeRoom(c, s, order)) && MakeRoom(c, s, order).available != []
    ensures MakeRoom(c, s, order).slotMap.Keys <= s.slotMap.Keys
    ensures |s.slotMap| < c.margin ==> MakeRoom(c, s, order).slotMap == s.slotMap
    ensures |MakeRoom(c, s, order).slotMap| == if |s.slotMap| >= c.margin then c.resolution else |s.slotMap|
    ensures forall l :: l in MakeRoom(c, s, order).slotMap ==> Value(c, MakeRoom(c, s, order), l) == Value(c, s, l)
  {
    var s1 := s;
    if |s.slotMap| >= c.margin {
      OrderSize(s, order);
      s1 := Evict(c, s, order);
      EvictOk(c, s, order);
      forall l | l in s1.slotMap
        ensures Value(c, s1, l) == Value(c, s, l)
      {
        var i: nat :| i < |order| && order[i] == l;
        assert EvictedAt(c, s, s1, order, i);
      }
    }
    if s1.available == [] {
      CarveOk(c, s1);
    }
  }

  /** Gives a new key the slot on top of the stack, with its value and initial metadata. */
  ghost function Store(c: Config, s: Part, k: int, value: seq<int>, now: int): Part
    requires Inv(c, s) && |value| <= c.g.maxValue && k !in s.slotMap && s.available != []
  {
    AttachOk(c, s, k);
    PutOk(c, Attach(s, k), k, value);
    Tag(c, Put(c, Attach(s, k), k, value), k, if c.policy.EvictLru? then now else 1)
  }

  lemma StoreOk(c: Config, s: Part, k: int, value: seq<int>, now: int)
    requires Inv(c, s) && |value| <= c.g.maxValue && k !in s.slotMap && s.available != []
    ensures var s' := Store(c, s, k, value, now);
            && Inv(c, s') && s'.slotMap.Keys == s.slotMap.Keys + {k} && |s'.slotMap| == |s.slotMap| + 1
            && Value(c, s', k)[..|value|] == value
            && (forall l :: l in s.slotMap ==> SameEntry(c, s, s', l))
  {
    AttachOk(c, s, k);
    var s2 := Attach(s, k);
    PutOk(c, s2, k, value);
    var s3 := Put(c, s2, k, value);
    var meta := if c.policy.EvictLru? then now else 1;
    TagOk(c, s3, k, meta);
    var s' := Tag(c, s3, k, meta);
    assert s'.slotMap.Keys == s.slotMap.Keys + {k};
    assert |s'.slotMap.Keys| == |s.slotMap.Keys| + 1;
    forall l | l in s.slotMap
      ensures SameEntry(c, s, s', l)
    {
      assert SameEntry(c, s, s2, l) && SameEntry(c, s2, s3, l) && SameEntry(c, s3, s', l);
    }
  }

  ghost function Insert(c: Config, s: Part, k: int, value: seq<int>, now: int, order: seq<int>): Part
    requires Inv(c, s) && |value| <= c.g.maxValue && (k in s.slotMap || OrderFor(c, s, order))
  {
    if k in s.slotMap then Put(c, s, k, value)
    else
      MakeRoomOk(c, s, order);
      Store(c, MakeRoom(c, s, order), k, value, now)
  }

  /** What an insert means for the table. */
  ghost predicate Inserted(c: Config, s: Part, s': Part, k: int, value: seq<int>) {
    && Inv(c, s) && Inv(c, s') && |value| <= c.g.maxValue && k in s'.slotMap && Value(c, s', k)[..|value|] == value
    && (k in s.slotMap ==> s'.slotMap == s.slotMap && Value(c, s', k) == Overlay(Value(c, s, k), value))
    && (k !in s.slotMap ==> |s'.slotMap| == 1 + if |s.slotMap| >= c.margin then c.resolution else |s.slotMap|)
    && (|s.slotMap| < c.margin ==> s'.slotMap.Keys == s.slotMap.Keys + {k})
    && (forall l :: l in s'.slotMap && l != k ==> l in s.slotMap && Value(c, s', l) == Value(c, s, l))
  }

  lemma InsertOk(c: Config, s: Part, k: int, value: seq<int>, now: int, order: seq<int>)
    requires Inv(c, s) && |value| <= c.g.maxValue && (k in s.slotMap || OrderFor(c, s, order))
    ensures Inserted(c, s, Insert(c, s, k, value, now, order), k, value)
  {
    if k in s.slotMap {
      PutOk(c, s, k, value);
      assert forall l :: l in s.slotMap && l != k ==> SameEntry(c, s, Put(c, s, k, value), l);
    } else {
      MakeRoomOk(c, s, order);
      var s1 := MakeRoom(c, s, order);
      StoreOk(c, s1, k, value, now);
      var s' := Store(c, s1, k, value, now);
      forall l | l in s'.slotMap && l != k
        ensures l in s.slotMap && Value(c, s', l) == Value(c, s, l)
      {
        assert SameEntry(c, s1, s', l);
      }
    }
  }

  /** The metadata after an insert: a new key starts with the time of the insert or a count of one, an old key keeps its
      own, and the others are halved by an LFU eviction only. */
  lemma InsertMeta(c: Config, s: Part, k: int, value: seq<int>, now: int, order: seq<int>, l: int)
    requires Inv(c, s) && |value| <= c.g.maxValue && (k in s.slotMap || OrderFor(c, s, order)) && c.g.hasMeta
    requires l in Insert(c, s, k, value, now, order).slotMap
    ensures Inv(c, Insert(c, s, k, value, now, order))
    ensures var meta := Meta(c, Insert(c, s, k, value, now, order), l);
            if l == k && k !in s.slotMap then meta == if c.policy.EvictLru? then now else 1
            else l in s.slotMap && meta == if k !in s.slotMap && |s.slotMap| >= c.margin && c.policy.EvictLfu?
                                           then Meta(c, s, l) / 2 else Meta(c, s, l)
  {
    InsertOk(c, s, k, value, now, order);
    if k in s.slotMap {
      PutOk(c, s, k, value);
      assert l != k ==> SameEntry(c, s, Put(c, s, k, value), l);
    } else {
      MakeRoomOk(c, s, order);
      var s1 := MakeRoom(c, s, order);
      if l == k {
        StoredMeta(c, s1, k, value, now);
      } else {
        StoreOk(c, s1, k, value, now);
        assert SameEntry(c, s1, Store(c, s1, k, value, now), l);
        RoomMeta(c, s, order, l);
      }
    }
  }

  lemma StoredMeta(c: Config, s: Part, k: int, value: seq<int>, now: int)
    requires Inv(c, s) && |value| <= c.g.maxValue && k !in s.slotMap && s.available != [] && c.g.hasMeta
    ensures Inv(c, Store(c, s, k, value, now)) && k in Store(c, s, k, value, now).slotMap
    ensures Meta(c, Store(c, s, k, value, now), k) == if c.policy.EvictLru? then now else 1
  {
    StoreOk(c, s, k, value, now);
    AttachOk(c, s, k);
    PutOk(c, Attach(s, k), k, value);
    TagOk(c, Put(c, Attach(s, k), k, value), k, if c.policy.EvictLru? then now else 1);
  }

  lemma RoomMeta(c: Config, s: Part, order: seq<int>, l: int)
    requires Inv(c, s) && OrderFor(c, s, order) && l in MakeRoom(c, s, order).slotMap
    ensures Inv(c, MakeRoom(c, s, order)) && l in s.slotMap
    ensures Meta(c, MakeRoom(c, s, order), l) ==
            if |s.slotMap| >= c.margin && c.policy.EvictLfu? then Meta(c, s, l) / 2 else Meta(c, s, l)
  {
    MakeRoomOk(c, s, order);
    var s1 := s;
    if |s.slotMap| >= c.margin {
      OrderSize(s, order);
      EvictOk(c, s, order);
      s1 := Evict(c, s, order);
      var i: nat :| i < |order| && order[i] == l;
      assert EvictedAt(c, s, s1, order, i);
    }
    if s1.available == [] {
      CarveOk(c, s1);
      assert SameEntry(c, s1, Carve(c, s1), l);
    }
  }

  // ---------------------------------------------------------------------------------------------
  // Runs.

  /** `now` is the time at which the insert or lookup started and `order` the eviction order used if there is one.
      `Skip` is a key of another partition. */
  datatype Op =
    | InsertKey(key: int, value: seq<int>, now: int, order: seq<int>)
    | UpdateKey(key: int, value: seq<int>)
    | EraseKey(key: int)
    | Touch(key: int, now: int)
    | Skip
    | Clear

  ghost predicate Enabled(c: Config, s: Part, op: Op) {
    match op
    case InsertKey(k, value, _, order) => |value| <= c.g.maxValue && (k in s.slotMap || OrderFor(c, s, order))
    case UpdateKey(_, value) => |value| <= c.g.maxValue
    case _ => true
  }

  ghost function Next(c: Config, s: Part, op: Op): Part
    requires Inv(c, s) && Enabled(c, s, op)
  {
    match op
    case InsertKey(k, value, now, order) => Insert(c, s, k, value, now, order)
    case UpdateKey(k, value) => if k in s.slotMap then Put(c, s, k, value) else s
    case EraseKey(k) => if k in s.slotMap then Free(s, k) else s
    case Touch(k, now) =>
      if k in s.slotMap then Tag(c, s, k, if c.policy.EvictLru? then now else Meta(c, s, k) + 1) else s
    case Skip => s
    case Clear => EMPTY
  }

  /** What the writes so far determine of each key's row: a prefix. A shorter write leaves the rest of a longer
      prefix. */
  function Merge(was: seq<int>, value: seq<int>): seq<int> {
    if |value| >= |was| then value else Overlay(was, value)
  }

  /** The abstract table: keys with their known prefixes. The eviction decides which keys are `kept`. */
  ghost function AbsNext(a: map<int, seq<int>>, op: Op, kept: set<int>): map<int, seq<int>> {
    match op
    case InsertKey(k, value, _, _) => AbsInsert(a, k, value, kept)
    case UpdateKey(k, value) => if k in a then a[k := Merge(a[k], value)] else a
    case EraseKey(k) => a - {k}
    case Touch(_, _) => a
    case Skip => a
    case Clear => map[]
  }

  ghost predicate Refines(c: Config, s: Part, a: map<int, seq<int>>) {
    && Inv(c, s) && a.Keys == s.slotMap.Keys
    && forall k :: k in a ==> KnownAt(c, s, k, a[k])
  }

  ghost predicate KnownAt(c: Config, s: Part, k: int, known: seq<int>) {
    Inv(c, s) && k in s.slotMap && |known| <= c.g.maxValue && Value(c, s, k)[..|known|] == known
  }

  predicate SizeOk(c: Config, s: Part) {
    |s.slotMap| <= c.margin || |s.slotMap| <= c.resolution + 1
  }

  lemma MergeKnown(c: Config, s: Part, s': Part, k: int, known: seq<int>, value: seq<int>)
    requires KnownAt(c, s, k, known) && Inv(c, s') && k in s'.slotMap && |value| <= c.g.maxValue
    requires Value(c, s', k) == Overlay(Value(c, s, k), value)
    ensures KnownAt(c, s', k, Merge(known, value))
  {
    var was, now, m := Value(c, s, k), Value(c, s', k), Merge(known, value);
    forall i | 0 <= i < |m|
      ensures now[i] == m[i]
    {
      assert i < |known| ==> was[..|known|][i] == known[i];
    }
  }

  lemma EmptyInv(c: Config)
    requires ConfigOk(c)
    ensures Inv(c, EMPTY)
  {
  }

  lemma StepInv(c: Config, s: Part, op: Op)
    requires Inv(c, s) && Enabled(c, s, op)
    ensures Inv(c, Next(c, s, op))
  {
    match op
    case InsertKey(k, value, now, order) => InsertOk(c, s, k, value, now, order);
    case UpdateKey(k, value) => if k in s.slotMap { PutOk(c, s, k, value); }
    case EraseKey(k) => if k in s.slotMap { FreeOk(c, s, k); }
    case Touch(k, now) =>
      if k in s.slotMap { TagOk(c, s, k, if c.policy.EvictLru? then now else Meta(c, s, k) + 1); }
    case Skip =>
    case Clear => EmptyInv(c);
  }

  lemma StepSize(c: Config, s: Part, op: Op)
    requires Inv(c, s) && Enabled(c, s, op) && SizeOk(c, s)
    ensures SizeOk(c, Next(c, s, op))
  {
    if op.InsertKey? {
      InsertOk(c, s, op.key, op.value, op.now, op.order);
    } else if op.EraseKey? && op.key in s.slotMap {
      FreeOk(c, s, op.key);
      assert Free(s, op.key).slotMap.Keys == s.slotMap.Keys - {op.key};
      assert |s.slotMap.Keys - {op.key}| <= |s.slotMap.Keys|;
    }
  }

  /** An operation on key `k` that leaves the other remaining rows alone. */
  lemma OthersRefine(c: Config, s: Part, s': Part, a: map<int, seq<int>>, a': map<int, seq<int>>, k: int)
    requires Refines(c, s, a) && Inv(c, s') && a'.Keys == s'.slotMap.Keys
    requires forall l :: l in s'.slotMap && l != k ==>
               l in s.slotMap && Value(c, s', l) == Value(c, s, l) && a'[l] == a[l]
    requires k in a' ==> KnownAt(c, s', k, a'[k])
    ensures Refines(c, s', a')
  {
    forall l | l in a'
      ensures KnownAt(c, s', l, a'[l])
    {
      if l != k {
        assert KnownAt(c, s, l, a[l]);
      }
    }
  }

  ghost function AbsInsert(a: map<int, seq<int>>, k: int, value: seq<int>, kept: set<int>): map<int, seq<int>> {
    (map l | l in a && l in kept :: a[l])[k := if k in a then Merge(a[k], value) else value]
  }

  lemma InsertRefines(c: Config, s: Part, s': Part, a: map<int, seq<int>>, k: int, value: seq<int>)
    requires Refines(c, s, a) && Inserted(c, s, s', k, value)
    ensures Refines(c, s', AbsInsert(a, k, value, s'.slotMap.Keys))
  {
    var a' := AbsInsert(a, k, value, s'.slotMap.Keys);
    forall l
      ensures l in a' <==> l in s'.slotMap
    {
      assert l in a <==> l in s.slotMap;
    }
    assert a'.Keys == s'.slotMap.Keys;
    if k in a {
      assert KnownAt(c, s, k, a[k]);
      MergeKnown(c, s, s', k, a[k], value);
    }
    OthersRefine(c, s, s', a, a', k);
  }

  lemma InsertStepRefines(c: Config, s: Part, a: map<int, seq<int>>, k: int, value: seq<int>, now: int, order: seq<int>)
    requires Refines(c, s, a) && |value| <= c.g.maxValue && (k in s.slotMap || OrderFor(c, s, order))
    ensures var s' := Insert(c, s, k, value, now, order); Refines(c, s', AbsInsert(a, k, value, s'.slotMap.Keys))
  {
    InsertOk(c, s, k, value, now, order);
    InsertRefines(c, s, Insert(c, s, k, value, now, order), a, k, value);
  }

  lemma UpdateRefines(c: Config, s: Part, a: map<int, seq<int>>, k: int, value: seq<int>)
    requires Refines(c, s, a) && |value| <= c.g.maxValue && k in s.slotMap
    ensures Refines(c, Put(c, s, k, value), a[k := Merge(a[k], value)])
  {
    var s' := Put(c, s, k, value);
    PutOk(c, s, k, value);
    assert KnownAt(c, s, k, a[k]);
    MergeKnown(c, s, s', k, a[k], value);
    assert forall l :: l in s'.slotMap && l != k ==> SameEntry(c, s, s', l);
    OthersRefine(c, s, s', a, a[k := Merge(a[k], value)], k);
  }

  lemma EraseRefines(c: Config, s: Part, a: map<int, seq<int>>, k: int)
    requires Refines(c, s, a) && k in s.slotMap
    ensures Refines(c, Free(s, k), a - {k})
  {
    FreeOk(c, s, k);
    assert forall l :: l in Free(s, k).slotMap && l != k ==> SameEntry(c, s, Free(s, k), l);
    OthersRefine(c, s, Free(s, k), a, a - {k}, k);
  }

  lemma TouchRefines(c: Config, s: Part, a: map<int, seq<int>>, k: int, meta: int)
    requires Refines(c, s, a) && k in s.slotMap
    ensures Refines(c, Tag(c, s, k, meta), a)
  {
    var s' := Tag(c, s, k, meta);
    TagOk(c, s, k, meta);
    assert forall l :: l in s'.slotMap && l != k ==> SameEntry(c, s, s', l);
    assert KnownAt(c, s, k, a[k]);
    OthersRefine(c, s, s', a, a, k);
  }

  lemma StepRefines(c: Config, s: Part, a: map<int, seq<int>>, op: Op)
    requires Refines(c, s, a) && Enabled(c, s, op)
    ensures Refines(c, Next(c, s, op), AbsNext(a, op, Next(c, s, op).slotMap.Keys))
  {
    match op
    case InsertKey(k, value, now, order) => InsertStepRefines(c, s, a, k, value, now, order);
    case UpdateKey(k, value) => if k in s.slotMap { UpdateRefines(c, s, a, k, value); }
    case EraseKey(k) => if k in s.slotMap { EraseRefines(c, s, a, k); } else { assert a - {k} == a; }
    case Touch(k, now) =>
      if k in s.slotMap { TouchRefines(c, s, a, k, if c.policy.EvictLru? then now else Meta(c, s, k) + 1); }
    case Skip =>
    case Clear => EmptyInv(c);
  }

  /** A step is defined on consistent states; that a run meets no others is `RunInv`. */
  ghost predicate IsStep(c: Config, s: Part, op: Op, s': Part) {
    Inv(c, s) ==> Enabled(c, s, op) && s' == Next(c, s, op)
  }

  /** `ss` lists the states of a run in which the operations `ops` happen in order. */
  ghost predicate IsRun(c: Config, ss: seq<Part>, ops: seq<Op>) {
    |ss| == |ops| + 1 && forall i :: 0 <= i < |ops| ==> IsStep(c, ss[i], ops[i], ss[i + 1])
  }

  /** The abstract run beside it. */
  ghost predicate IsAbsRun(ss: seq<Part>, aa: seq<map<int, seq<int>>>, ops: seq<Op>) {
    && |ss| == |aa| == |ops| + 1
    && forall i :: 0 <= i < |ops| ==> aa[i + 1] == AbsNext(aa[i], ops[i], ss[i + 1].slotMap.Keys)
  }

  /** In every reachable state the slots are conserved and the size is bounded. */
  lemma {:induction false} RunInv(c: Config, ss: seq<Part>, ops: seq<Op>, n: nat)
    requires ConfigOk(c) && IsRun(c, ss, ops) && ss[0] == EMPTY && n <= |ops|
    ensures Inv(c, ss[n]) && SizeOk(c, ss[n])
  {
    if n == 0 {
      EmptyInv(c);
    } else {
      RunInv(c, ss, ops, n - 1);
      assert IsStep(c, ss[n - 1], ops[n - 1], ss[n]);
      StepInv(c, ss[n - 1], ops[n - 1]);
      StepSize(c, ss[n - 1], ops[n - 1]);
    }
  }

  /** In every reachable state the table holds, for exactly the keys of the abstract table, rows that start with what
      was written last. */
  lemma {:induction false} RunRefines(c: Config, ss: seq<Part>, aa: seq<map<int, seq<int>>>, ops: seq<Op>, n: nat)
    requires IsRun(c, ss, ops) && IsAbsRun(ss, aa, ops) && Refines(c, ss[0], aa[0]) && n <= |ops|
    ensures Refines(c, ss[n], aa[n])
  {
    if n > 0 {
      RunRefines(c, ss, aa, ops, n - 1);
      assert IsStep(c, ss[n - 1], ops[n - 1], ss[n]);
      StepRefines(c, ss[n - 1], aa[n - 1], ops[n - 1]);
    }
  }

  /** A lookup returns a whole row; it is exactly what was written if the writes covered the row. */
  lemma FindsWritten(c: Config, s: Part, a: map<int, seq<int>>, k: int)
    requires Refines(c, s, a)
    ensures k in s.slotMap <==> k in a
    ensures k in a && |a[k]| == c.g.maxValue ==> Value(c, s, k) == a[k]
  {
    if k in a {
      assert KnownAt(c, s, k, a[k]);
    }
  }

  /** A new key takes over the last freed slot, and what its first write does not cover of the row stays that of the key
      the slot belonged to before. */
  lemma ReusedRow(c: Config, s: Part, k: int, l: int, value: seq<int>, now: int, order: seq<int>)
    requires Inv(c, s) && k in s.slotMap && l !in s.slotMap && |value| <= c.g.maxValue && |s.slotMap| <= c.margin
    ensures Inv(c, Free(s, k)) && |Free(s, k).slotMap| < c.margin
    ensures var s' := Insert(c, Free(s, k), l, value, now, order);
            Inv(c, s') && l in s'.slotMap && Value(c, s', l) == Overlay(Value(c, s, k), value)
  {
    FreeOk(c, s, k);
    var s1 := Free(s, k);
    assert |s1.slotMap.Keys| == |s.slotMap.Keys| - 1;
    InsertOk(c, s1, l, value, now, order);
    StoredRow(c, s1, l, value, now);
  }

  lemma StoredRow(c: Config, s: Part, k: int, value: seq<int>, now: int)
    requires Inv(c, s) && |value| <= c.g.maxValue && k !in s.slotMap && s.available != []
    ensures var s', top := Store(c, s, k, value, now), s.available[|s.available| - 1];
            SlotOk(c.g, s.buffers, top) && Inv(c, s') && k in s'.slotMap &&
            Value(c, s', k) == Overlay(ValueAt(c.g, s.buffers, top), value)
  {
    assert s.available[|s.available| - 1] in s.available;
    StoreOk(c, s, k, value, now);
    AttachOk(c, s, k);
    PutOk(c, Attach(s, k), k, value);
    TagOk(c, Put(c, Attach(s, k), k, value), k, if c.policy.EvictLru? then now else 1);
  }

  // ---------------------------------------------------------------------------------------------
  // Sizes.

  function NextAligned(x: nat, n: nat): nat
    requires n >= 1
  {
    (x + n - 1) / n * n
  }

  function SlotStride(maxValue: nat, metaSize: nat, alignment: nat): nat
    requires alignment >= 1
  {
    NextAligned(maxValue + metaSize, alignment)
  }

  predicate Yields(rate: nat, stride: nat) {
    rate >= stride
  }

  /** A new buffer yields a slot exactly if the allocation rate reaches the slot stride. */
  lemma CarvesIff(c: Config, s: Part, rate: nat)
    requires c.g.stride >= 1 && c.g.perBuffer == rate / c.g.stride
    ensures Carve(c, s).available != [] <==> s.available != [] || Yields(rate, c.g.stride)
  {
    Arith.DivBound(rate, c.g.stride);
  }

  lemma NextAlignedIs(x: nat, n: nat)
    requires n >= 1
    ensures NextAligned(x, n) == if x % n == 0 then x else x - x % n + n
  {
    var q, r := x / n, x % n;
    assert x == q * n + r;
    if r == 0 {
      Arith.ModUnique(x + n - 1, n, q, n - 1);
    } else {
      Arith.ModUnique(x + n - 1, n, q + 1, r - 1);
      assert (q + 1) * n == q * n + n;
    }
  }

  /** The bound that is enforced on the allocation rate, the largest value, is enough exactly if there is no metadata
      and the value is a multiple of the alignment. The documented one, more than value plus metadata, is enough
      exactly if padding adds at most one byte. */
  lemma RateBoundsIff(maxValue: nat, metaSize: nat, alignment: nat)
    requires alignment >= 1
    ensures (forall rate :: rate >= maxValue ==> Yields(rate, SlotStride(maxValue, metaSize, alignment))) <==>
            metaSize == 0 && maxValue % alignment == 0
    ensures (forall rate :: rate > maxValue + metaSize ==> Yields(rate, SlotStride(maxValue, metaSize, alignment))) <==>
            (maxValue + metaSize) % alignment == 0 || (maxValue + metaSize) % alignment == alignment - 1
  {
    var sum, stride := maxValue + metaSize, SlotStride(maxValue, metaSize, alignment);
    NextAlignedIs(sum, alignment);
    assert Yields(maxValue, stride) <==> stride <= maxValue;
    assert Yields(sum + 1, stride) <==> stride <= sum + 1;
  }
}
