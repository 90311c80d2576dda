/** Inserting into a partition of the nvHashMap-backed table. Unlike the slot-backed table it stores a new key first and
    resolves an overflow afterwards, so that the new key takes part in the eviction. */
module NvhmInsert {

  import opened EvictionOrder
  import SlotTable

  /** What the writes so far determine of a row, and its metadata. */
  datatype Entry = Entry(known: seq<int>, meta: int)

  type Entries = map<int, Entry>

  datatype Limits = Limits(margin: nat, resolution: nat, policy: SlotTable.Policy)

  predicate LimitsOk(l: Limits) {
    l.resolution <= l.margin
  }

  function Metas(entries: Entries): map<int, int> {
    map k | k in entries :: entries[k].meta
  }

  /** The entries after the first `n` keys of the order are erased. */
  function Without(entries: Entries, order: seq<int>, n: nat): Entries
    requires n <= |order|
  {
    map k | k in entries && k !in order[..n] :: entries[k]
  }

  function Halve(entries: Entries): Entries {
    map k | k in entries :: entries[k].(meta := entries[k].meta / 2)
  }

  ghost predicate IsEvictionOrder(l: Limits, entries: Entries, order: seq<int>) {
    IsPartialOrder(Metas(entries), !l.policy.EvictRandom?, order, {})
  }

  ghost function Evicted(l: Limits, entries: Entries, order: seq<int>): Entries {
    var kept := Without(entries, order, if |order| >= l.resolution then |order| - l.resolution else 0);
    if l.policy.EvictLfu? then Halve(kept) else kept
  }

  function Upsert(l: Limits, entries: Entries, k: int, value: seq<int>, now: int): Entries {
    entries[k := if k in entries then entries[k].(known := SlotTable.Merge(entries[k].known, value))
                 else Entry(value, StartMeta(l, now))]
  }

  /** One key of a batch. */
  ghost function Insert(l: Limits, entries: Entries, k: int, value: seq<int>, now: int, order: seq<int>): Entries {
    var e := Upsert(l, entries, k, value, now);
    if k in entries || |e| < l.margin then e else Evicted(l, e, order)
  }

  ghost predicate OrderGiven(l: Limits, entries: Entries, k: int, value: seq<int>, now: int, order: seq<int>) {
    var e := Upsert(l, entries, k, value, now);
    k !in entries && |e| >= l.margin ==> IsEvictionOrder(l, e, order)
  }

  lemma OrderLength(l: Limits, entries: Entries, order: seq<int>)
    requires IsEvictionOrder(l, entries, order)
    ensures |order| == |entries| && forall k :: k in order <==> k in entries
  {
    SlotTable.EnumerationSize(order);
    forall k
      ensures k in order <==> k in entries
    {
      assert k in entries <==> k in Metas(entries);
    }
    assert (set k | k in order) == entries.Keys;
  }

  lemma {:induction false} WithoutSize(entries: Entries, order: seq<int>, n: nat)
    requires n <= |order| && (forall i, j :: 0 <= i < j < |order| ==> order[i] != order[j])
    requires forall i :: 0 <= i < |order| ==> order[i] in entries
    ensures |Without(entries, order, n)| == |entries| - n
    ensures forall i :: 0 <= i < |order| ==> (order[i] in Without(entries, order, n) <==> i >= n)
  {
    if n == 0 {
      assert Without(entries, order, 0) == entries;
    } else {
      WithoutSize(entries, order, n - 1);
      WithoutNext(entries, order, n - 1);
      var e := Without(entries, order, n - 1);
      assert (e - {order[n - 1]}).Keys == e.Keys - {order[n - 1]};
    }
  }

  lemma WithoutNext(entries: Entries, order: seq<int>, n: nat)
    requires n < |order|
    ensures Without(entries, order, n + 1) == Without(entries, order, n) - {order[n]}
  {
    assert order[..n + 1] == order[..n] + [order[n]];
  }

  /** An eviction leaves exactly `resolution` keys: the last of the order, with their rows. */
  lemma EvictedOk(l: Limits, entries: Entries, order: seq<int>)
    requires IsEvictionOrder(l, entries, order) && l.resolution <= |entries|
    ensures |order| == |entries| && |Evicted(l, entries, order)| == l.resolution
    ensures forall i :: 0 <= i < |order| ==> (order[i] in Evicted(l, entries, order) <==> i >= |order| - l.resolution)
    ensures Evicted(l, entries, order).Keys <= entries.Keys
    ensures forall k :: k in Evicted(l, entries, order) ==> Evicted(l, entries, order)[k].known == entries[k].known
  {
    OrderLength(l, entries, order);
    forall i | 0 <= i < |order|
      ensures order[i] in entries
    {
      assert order[i] in order;
    }
    var kept := Without(entries, order, |order| - l.resolution);
    WithoutSize(entries, order, |order| - l.resolution);
    assert Halve(kept).Keys == kept.Keys;
  }

  /** Under LRU and LFU no evicted key has larger metadata than a surviving one. */
  lemma EvictsSmallest(l: Limits, entries: Entries, order: seq<int>, k: int, s: int)
    requires IsEvictionOrder(l, entries, order) && !l.policy.EvictRandom? && l.resolution <= |entries|
    requires k in entries && k !in Evicted(l, entries, order) && s in Evicted(l, entries, order)
    ensures s in entries && entries[k].meta <= entries[s].meta
  {
    EvictedOk(l, entries, order);
    assert k in Metas(entries) && s in Metas(entries);
    var i :| 0 <= i < |order| && order[i] == k;
    var j :| 0 <= j < |order| && order[j] == s;
    assert Metas(entries)[order[i]] <= Metas(entries)[order[j]];
  }

  /** The size allowed after any key: one less than the margin, or the resolution. */
  predicate SizeOk(l: Limits, entries: Entries) {
    |entries| < l.margin || |entries| <= l.resolution
  }

  lemma InsertSize(l: Limits, entries: Entries, k: int, value: seq<int>, now: int, order: seq<int>)
    requires LimitsOk(l) && SizeOk(l, entries) && OrderGiven(l, entries, k, value, now, order)
    ensures SizeOk(l, Insert(l, entries, k, value, now, order))
  {
    var e := Upsert(l, entries, k, value, now);
    if k in entries {
      assert e.Keys == entries.Keys;
      assert |e.Keys| == |entries.Keys|;
    } else if |e| >= l.margin {
      EvictedOk(l, e, order);
    }
  }

  /** Every key that remains has the row it had, the inserted key with the new value on top. */
  lemma InsertRows(l: Limits, entries: Entries, k: int, value: seq<int>, now: int, order: seq<int>, x: int)
    requires LimitsOk(l) && OrderGiven(l, entries, k, value, now, order)
    requires x in Insert(l, entries, k, value, now, order)
    ensures var known := Insert(l, entries, k, value, now, order)[x].known;
            if x == k then known == (if k in entries then SlotTable.Merge(entries[k].known, value) else value)
            else x in entries && known == entries[x].known
  {
    var e := Upsert(l, entries, k, value, now);
    if k !in entries && |e| >= l.margin {
      EvictedOk(l, e, order);
    }
  }

  /** Metadata likewise: a new key starts with the time of the insert or a count of one; an LFU overflow halves all
      counts that remain, and nothing else changes any. */
  lemma InsertMetas(l: Limits, entries: Entries, k: int, value: seq<int>, now: int, order: seq<int>, x: int)
    requires LimitsOk(l) && OrderGiven(l, entries, k, value, now, order)
    requires x in Insert(l, entries, k, value, now, order)
    ensures var start := if x in entries then entries[x].meta else if l.policy.EvictLru? then now else 1;
            Insert(l, entries, k, value, now, order)[x].meta ==
            if k !in entries && |entries| + 1 >= l.margin && l.policy.EvictLfu? then start / 2 else start
  {
    var e := Upsert(l, entries, k, value, now);
    if k !in entries {
      assert e.Keys == entries.Keys + {k};
      assert |e.Keys| == |entries.Keys| + 1;
    }
  }

  // ---------------------------------------------------------------------------------------------
  // Whether the new key survives the overflow it causes.

  /** What the metadata of a new key starts with. */
  function StartMeta(l: Limits, now: int): int {
    if l.policy.EvictLru? then now else 1
  }

  /** The other keys with larger metadata; without metadata there are none. */
  ghost function Larger(l: Limits, entries: Entries, v: int): set<int> {
    set x | x in entries && !l.policy.EvictRandom? && entries[x].meta > v
  }

  /** The other keys without smaller metadata; without metadata that is all of them. */
  ghost function NotSmaller(l: Limits, entries: Entries, v: int): set<int> {
    set x | x in entries && (l.policy.EvictRandom? || entries[x].meta >= v)
  }

  /** Inserting `k` overflows the partition, and something is evicted. */
  ghost predicate Overflows(l: Limits, entries: Entries, k: int) {
    LimitsOk(l) && k !in entries && |entries| + 1 >= l.margin && |entries| + 1 > l.resolution
  }

  lemma OverflowSize(l: Limits, entries: Entries, k: int, value: seq<int>, now: int)
    requires k !in entries
    ensures |Upsert(l, entries, k, value, now)| == |entries| + 1 && k in Metas(Upsert(l, entries, k, value, now))
  {
    var e := Upsert(l, entries, k, value, now);
    assert e.Keys == entries.Keys + {k};
    assert |e.Keys| == |entries.Keys| + 1;
  }

  /** The keys that can or must come after the new one, in terms of the partition before the insert. */
  lemma OverflowSets(l: Limits, entries: Entries, k: int, value: seq<int>, now: int)
    requires k !in entries
    ensures var metas, sorted := Metas(Upsert(l, entries, k, value, now)), !l.policy.EvictRandom?;
            && k in metas
            && Above(metas, sorted, k) == Larger(l, entries, StartMeta(l, now))
            && NotBelow(metas, sorted, k) == NotSmaller(l, entries, StartMeta(l, now))
  {
    var metas := Metas(Upsert(l, entries, k, value, now));
    forall x
      ensures x in metas && x != k <==> x in entries
      ensures x in entries ==> metas[x] == entries[x].meta
    {
    }
    assert metas[k] == StartMeta(l, now);
    SameSets(l, entries, metas, k, StartMeta(l, now));
  }

  lemma SameSets(l: Limits, entries: Entries, metas: map<int, int>, k: int, v: int)
    requires k in metas && metas[k] == v
    requires forall x :: x in metas && x != k <==> x in entries
    requires forall x :: x in entries ==> metas[x] == entries[x].meta
    ensures Above(metas, !l.policy.EvictRandom?, k) == Larger(l, entries, v)
    ensures NotBelow(metas, !l.policy.EvictRandom?, k) == NotSmaller(l, entries, v)
  {
    forall x
      ensures x in Above(metas, !l.policy.EvictRandom?, k) <==> x in Larger(l, entries, v)
      ensures x in NotBelow(metas, !l.policy.EvictRandom?, k) <==> x in NotSmaller(l, entries, v)
    {
      assert x in metas && x != k <==> x in entries;
    }
  }

  /** The new key survives exactly if fewer than `resolution` keys come after it. */
  lemma SurvivesIff(l: Limits, e: Entries, order: seq<int>, i: nat)
    requires IsEvictionOrder(l, e, order) && l.resolution <= |e| && i < |order|
    ensures order[i] in Evicted(l, e, order) <==> |order| - 1 - i < l.resolution
  {
    EvictedOk(l, e, order);
  }

  ghost predicate AlwaysEvicted(l: Limits, entries: Entries, k: int, value: seq<int>, now: int) {
    forall order :: OrderGiven(l, entries, k, value, now, order) ==> k !in Insert(l, entries, k, value, now, order)
  }

  ghost predicate AlwaysKept(l: Limits, entries: Entries, k: int, value: seq<int>, now: int) {
    forall order :: OrderGiven(l, entries, k, value, now, order) ==> k in Insert(l, entries, k, value, now, order)
  }

  /** An overflow evicts the new key whatever the order if and only if at least `resolution` others have larger metadata
      than it starts with. */
  lemma FreshKeyEvictedIff(l: Limits, entries: Entries, k: int, value: seq<int>, now: int)
    requires Overflows(l, entries, k)
    ensures AlwaysEvicted(l, entries, k, value, now) <==> |Larger(l, entries, StartMeta(l, now))| >= l.resolution
  {
    var e, sorted := Upsert(l, entries, k, value, now), !l.policy.EvictRandom?;
    OverflowSize(l, entries, k, value, now);
    OverflowSets(l, entries, k, value, now);
    if |Larger(l, entries, StartMeta(l, now))| >= l.resolution {
      forall order | OrderGiven(l, entries, k, value, now, order)
        ensures k !in Insert(l, entries, k, value, now, order)
      {
        var i :| 0 <= i < |order| && order[i] == k;
        AfterBounds(Metas(e), sorted, order, i);
        SurvivesIff(l, e, order, i);
      }
    } else {
      var order, i := LatestOrder(Metas(e), sorted, k);
      SurvivesIff(l, e, order, i);
      assert OrderGiven(l, entries, k, value, now, order) && k in Insert(l, entries, k, value, now, order);
    }
  }

  /** It keeps the new key whatever the order if and only if fewer than `resolution` others have metadata at least
      that. */
  lemma FreshKeyKeptIff(l: Limits, entries: Entries, k: int, value: seq<int>, now: int)
    requires Overflows(l, entries, k)
    ensures AlwaysKept(l, entries, k, value, now) <==> |NotSmaller(l, entries, StartMeta(l, now))| < l.resolution
  {
    var e, sorted := Upsert(l, entries, k, value, now), !l.policy.EvictRandom?;
    OverflowSize(l, entries, k, value, now);
    OverflowSets(l, entries, k, value, now);
    if |NotSmaller(l, entries, StartMeta(l, now))| < l.resolution {
      forall order | OrderGiven(l, entries, k, value, now, order)
        ensures k in Insert(l, entries, k, value, now, order)
      {
        var i :| 0 <= i < |order| && order[i] == k;
        AfterBounds(Metas(e), sorted, order, i);
        SurvivesIff(l, e, order, i);
      }
    } else {
      var order, i := EarliestOrder(Metas(e), sorted, k);
      SurvivesIff(l, e, order, i);
      assert OrderGiven(l, entries, k, value, now, order) && k !in Insert(l, entries, k, value, now, order);
    }
  }

  /** A new count of one is no obstacle to being evicted: with margin 4, resolution 2 and counts 1, 5 and 5 the new key
      goes under every order. */
  lemma FreshKeyEvictedExample(k1: int, k2: int, k3: int, k: int, value: seq<int>, now: int)
    requires k1 != k2 && k1 != k3 && k2 != k3 && k != k1 && k != k2 && k != k3
    ensures AlwaysEvicted(Limits(4, 2, SlotTable.EvictLfu),
                          map[k1 := Entry([], 1), k2 := Entry([], 5), k3 := Entry([], 5)], k, value, now)
  {
    var l, entries := Limits(4, 2, SlotTable.EvictLfu), map[k1 := Entry([], 1), k2 := Entry([], 5), k3 := Entry([], 5)];
    assert entries.Keys == {k1, k2, k3};
    assert Larger(l, entries, 1) == {k2, k3};
    FreshKeyEvictedIff(l, entries, k, value, now);
  }

  class Partition {
    const l: Limits
    var entries: Entries

    constructor (l: Limits)
      ensures this.l == l && entries == map[]
    {
      this.l := l;
      entries := map[];
    }

    /** Erases the first keys of the order, then halves the counts that remain under LFU. */
    method EvictKeys(order: seq<int>)
      requires LimitsOk(l) && IsEvictionOrder(l, entries, order) && l.resolution <= |entries|
      modifies this
      ensures entries == Evicted(l, old(entries), order)
    {
      ghost var e := entries;
      OrderLength(l, entries, order);
      var n := |order| - l.resolution;
      assert entries == Without(e, order, 0);
      for i := 0 to n
        invariant entries == Without(e, order, i)
      {
        WithoutNext(e, order, i);
        entries := entries - {order[i]};
      }
      if l.policy.EvictLfu? {
        entries := Halve(entries);
      }
    }

    /** Inserts the keys of this partition in order. `partSize` follows the size of the map, and after every key the
        size is within bounds. */
    method InsertBatch(keys: seq<int>, rows: seq<seq<int>>, now: int, me: nat, partOf: int -> nat)
      returns (ghost states: seq<Entries>, ghost orders: seq<seq<int>>)
      requires LimitsOk(l) && SizeOk(l, entries) && |rows| == |keys|
      modifies this
      ensures |states| == |keys| + 1 == |orders| + 1 && states[0] == old(entries) && states[|keys|] == entries
      ensures forall i :: 0 <= i < |keys| ==>
                IsInsertStep(l, states[i], states[i + 1], keys[i], rows[i], now, orders[i], partOf(keys[i]) == me)
      ensures forall i :: 0 <= i < |states| ==> SizeOk(l, states[i])
    {
      states, orders := [entries], [];
      var partSize := |entries|;
      for i := 0 to |keys|
        invariant partSize == |entries| && |states| == i + 1 == |orders| + 1
        invariant states[0] == old(entries) && states[i] == entries
        invariant forall j :: 0 <= j < i ==>
          IsInsertStep(l, states[j], states[j + 1], keys[j], rows[j], now, orders[j], partOf(keys[j]) == me)
        invariant forall j :: 0 <= j <= i ==> SizeOk(l, states[j])
      {
        ghost var order := [];
        ghost var e := entries;
        if partOf(keys[i]) == me {
          partSize, order := InsertKey(keys[i], rows[i], now, partSize);
          InsertSize(l, e, keys[i], rows[i], now, order);
        }
        assert IsInsertStep(l, e, entries, keys[i], rows[i], now, order, partOf(keys[i]) == me);
        states, orders := states + [entries], orders + [order];
      }
    }

    method InsertKey(k: int, value: seq<int>, now: int, partSize: nat) returns (newSize: nat, ghost order: seq<int>)
      requires LimitsOk(l) && partSize == |entries|
      modifies this
      ensures newSize == |entries| && OrderGiven(l, old(entries), k, value, now, order)
      ensures entries == Insert(l, old(entries), k, value, now, order)
    {
      order := [];
      ghost var was := entries;
      entries := Upsert(l, entries, k, value, now);
      newSize := |entries|;
      if k in was {
        assert entries.Keys == was.Keys;
      } else {
        assert entries.Keys == was.Keys + {k};
      }
      assert |entries.Keys| == |was.Keys| + if k in was then 0 else 1;
      if newSize != partSize && newSize >= l.margin {
        var chosen := Enumerate(Metas(entries), !l.policy.EvictRandom?);
        order := chosen;
        EvictKeys(chosen);
        newSize := |entries|;
      }
    }
  }

  /** Key `k` takes the partition from `e` to `e'`; a key of another partition changes nothing. */
  ghost predicate IsInsertStep(l: Limits, e: Entries, e': Entries, k: int, value: seq<int>, now: int, order: seq<int>,
                               mine: bool) {
    if mine then OrderGiven(l, e, k, value, now, order) && e' == Insert(l, e, k, value, now, order) else e' == e
  }
}
