/** One table of the set-associative cache with host metadata: tags and counters on the host, tags and rows
    on the device, and the operations that change them in place. The device steps of a modify are run to
    completion here; GracePeriod covers what happens to lookups meanwhile. */
module SetCache {
  import opened CacheSpec
  import opened CacheUpdate
  import opened Common

  // ---------------------------------------------------------------------------------------------
  // What the device does with a list of entries.

  ghost function Cleared(tags: seq<int>, list: seq<ModifyEntry>, sentinel: int): (r: seq<int>)
    requires SlotsBelow(list, |tags|)
    ensures |r| == |tags|
  {
    if list == [] then tags
    else Cleared(tags, list[..|list| - 1], sentinel)[list[|list| - 1].slot := sentinel]
  }

  ghost function Published(tags: seq<int>, list: seq<ModifyEntry>): (r: seq<int>)
    requires SlotsBelow(list, |tags|)
    ensures |r| == |tags|
  {
    if list == [] then tags
    else Published(tags, list[..|list| - 1])[list[|list| - 1].slot := list[|list| - 1].tag]
  }

  /** `combine` is replacement for insert and update, accumulation for update_accumulate. */
  ghost function Combined(rows: seq<Row>, list: seq<ModifyEntry>, combine: (Row, Row) -> Row): (r: seq<Row>)
    requires SlotsBelow(list, |rows|)
    ensures |r| == |rows|
  {
    if list == [] then rows
    else
      var e := list[|list| - 1];
      var before := Combined(rows, list[..|list| - 1], combine);
      before[e.slot := combine(before[e.slot], e.src)]
  }

  lemma {:induction false} ClearedAt(tags: seq<int>, list: seq<ModifyEntry>, sentinel: int, x: nat)
    requires SlotsBelow(list, |tags|) && x < |tags|
    ensures Cleared(tags, list, sentinel)[x] ==
            if exists i :: 0 <= i < |list| && list[i].slot == x then sentinel else tags[x]
  {
    if list != [] {
      var pre := list[..|list| - 1];
      ClearedAt(tags, pre, sentinel, x);
      assert forall i :: 0 <= i < |pre| ==> pre[i] == list[i];
    }
  }

  lemma {:induction false} PublishedAt(tags: seq<int>, list: seq<ModifyEntry>, x: nat)
    requires SlotsBelow(list, |tags|) && SlotsDistinct(list) && x < |tags|
    ensures forall i :: 0 <= i < |list| && list[i].slot == x ==> Published(tags, list)[x] == list[i].tag
    ensures (forall i :: 0 <= i < |list| ==> list[i].slot != x) ==> Published(tags, list)[x] == tags[x]
  {
    if list != [] {
      var pre := list[..|list| - 1];
      PublishedAt(tags, pre, x);
      assert forall i :: 0 <= i < |pre| ==> pre[i] == list[i];
    }
  }

  lemma {:induction false} CombinedAt(rows: seq<Row>, list: seq<ModifyEntry>, combine: (Row, Row) -> Row, x: nat)
    requires SlotsBelow(list, |rows|) && SlotsDistinct(list) && x < |rows|
    ensures forall i :: 0 <= i < |list| && list[i].slot == x ==>
              Combined(rows, list, combine)[x] == combine(rows[x], list[i].src)
    ensures (forall i :: 0 <= i < |list| ==> list[i].slot != x) ==> Combined(rows, list, combine)[x] == rows[x]
  {
    if list != [] {
      var pre := list[..|list| - 1];
      CombinedAt(rows, pre, combine, x);
      assert forall i :: 0 <= i < |pre| ==> pre[i] == list[i];
    }
  }

  function Replace(): (Row, Row) -> Row {
    (old_: Row, new_: Row) => new_
  }

  ghost function Decayed(counters: seq<real>, rate: real): seq<real> {
    seq(|counters|, i requires 0 <= i < |counters| => counters[i] * rate)
  }

  lemma FirstMinUnique(counters: seq<real>, base: nat, x: nat, y: nat)
    requires FirstMin(counters, base, 8, x) && FirstMin(counters, base, 8, y)
    ensures x == y
  {
    assert counters[x] <= counters[y] && counters[y] <= counters[x];
  }

  /** Once the batch is cut off, the remaining keys change nothing. */
  lemma {:induction false} CutOff(c: Config, st: Insertion, batch: seq<Candidate>, max: nat, i: nat, n: nat)
    requires Sized(c, st.tags) && Sized(c, st.counters) && i <= n <= |batch|
    requires i == |batch| || |InsertUpTo(c, st, batch, max, i).pending| >= max
    ensures InsertUpTo(c, st, batch, max, n) == InsertUpTo(c, st, batch, max, i)
  {
    if i < n { CutOff(c, st, batch, max, i, n - 1); }
  }

  /** The row of every resident key is the one last written for it. */
  ghost predicate RowsOk(c: Config, tags: seq<int>, rows: seq<Row>, written: map<int, Row>) {
    |rows| == |tags| &&
    forall x :: 0 <= x < |tags| && tags[x] != c.sentinel ==>
      KeyAt(c, tags, x) in written && rows[x] == written[KeyAt(c, tags, x)]
  }

  /** The keys placed by an insert, with their rows. */
  ghost function Placed(c: Config, st: Insertion, batch: seq<Candidate>): map<int, Row> {
    map i | 0 <= i < |batch| && FindSlot(c, st.tags, batch[i].key) in st.pending ::
      batch[i].key := st.pending[FindSlot(c, st.tags, batch[i].key)].src
  }

  lemma InsertRowsOk(c: Config, tags0: seq<int>, rows0: seq<Row>, st: Insertion, batch: seq<Candidate>,
                     rows1: seq<Row>, written: map<int, Row>)
    requires HashOk(c) && InsertionOk(c, tags0, st) && AllFilledFrom(c, st, batch)
    requires RowsOk(c, tags0, rows0, written) && |rows1| == |rows0|
    requires forall x :: 0 <= x < |rows1| ==> rows1[x] == if x in st.pending then st.pending[x].src else rows0[x]
    ensures RowsOk(c, st.tags, rows1, written + Placed(c, st, batch))
  {
    forall x | 0 <= x < |st.tags| && st.tags[x] != c.sentinel
      ensures var k := KeyAt(c, st.tags, x);
              k in written + Placed(c, st, batch) && rows1[x] == (written + Placed(c, st, batch))[k]
    {
      var k := KeyAt(c, st.tags, x);
      assert Occupied(c, st.tags, x) && Matches(c, st.tags, k, x);
      MatchUnique(c, st.tags, k, x, FindSlot(c, st.tags, k));
      if x in st.pending {
        assert FilledFrom(c, st, batch, x);
        var i :| 0 <= i < |batch| && Matches(c, st.tags, batch[i].key, x);
        assert batch[i].key == k;
      } else {
        assert KeyAt(c, tags0, x) == k;
      }
    }
  }

  lemma InvalidateRowsOk(c: Config, tags: seq<int>, rows: seq<Row>, keys: seq<int>, n: nat, written: map<int, Row>)
    requires RowsOk(c, tags, rows, written) && n <= |keys|
    ensures RowsOk(c, InvalidateUpTo(c, tags, keys, n).tags, rows, written)
  {
    if n > 0 { InvalidateRowsOk(c, tags, rows, keys, n - 1, written); }
  }

  lemma {:induction false} InvalidateClears(c: Config, tags: seq<int>, keys: seq<int>, n: nat)
    requires HashOk(c) && TagsOk(c, tags) && KeysUsable(c, keys) && n <= |keys|
    ensures SlotsBelow(InvalidateUpTo(c, tags, keys, n).list, |tags|)
    ensures Cleared(tags, InvalidateUpTo(c, tags, keys, n).list, c.sentinel) == InvalidateUpTo(c, tags, keys, n).tags
  {
    InvalidateList(c, tags, keys, n);
    if n > 0 {
      InvalidateClears(c, tags, keys, n - 1);
      var st, r := InvalidateUpTo(c, tags, keys, n - 1), InvalidateUpTo(c, tags, keys, n);
      if FindSlot(c, st.tags, keys[n - 1]) != -1 {
        assert r.list[..|r.list| - 1] == st.list;
      }
    }
  }

  /** The keys an update changes, with their new rows. */
  ghost function Updated(c: Config, tags: seq<int>, rows: seq<Row>, keys: seq<int>, data: seq<Row>, max: nat,
                         combine: (Row, Row) -> Row): map<int, Row>
    requires |keys| == |data| && |rows| == |tags| && KeysDistinct(keys)
  {
    map i | 0 <= i < |keys| && FindSlot(c, tags, keys[i]) != -1 && Rank(c, tags, keys, i) < max ::
      keys[i] := combine(rows[FindSlot(c, tags, keys[i])], data[i])
  }

  /** The slot of a key holds an entry of the update list exactly when the key is among those updated. */
  lemma UpdatedSlot(c: Config, tags: seq<int>, rows: seq<Row>, keys: seq<int>, data: seq<Row>, max: nat, i: nat, x: nat)
    requires HashOk(c) && TagsOk(c, tags) && KeysUsable(c, keys) && KeysDistinct(keys)
    requires |keys| == |data| && |rows| == |tags| && i < |keys| && Matches(c, tags, keys[i], x)
    ensures var list := UpdateList(c, tags, keys, data, max, |keys|);
            if Rank(c, tags, keys, i) < max
            then exists j :: 0 <= j < |list| && list[j].slot == x && list[j].src == data[i]
            else forall j :: 0 <= j < |list| ==> list[j].slot != x
  {
    var list, rank := UpdateList(c, tags, keys, data, max, |keys|), Rank(c, tags, keys, i);
    if rank < max {
      UpdateListComplete(c, tags, keys, data, max, |keys|, i);
      MatchUnique(c, tags, keys[i], x, list[rank].slot);
    } else {
      UpdateListLength(c, tags, keys, data, max, |keys|);
      forall j | 0 <= j < |list| ensures list[j].slot != x {
        var a := UpdateListSound(c, tags, keys, data, max, |keys|, j);
      }
    }
  }

  /** A slot of a key outside the batch has no entry. */
  lemma OtherSlot(c: Config, tags: seq<int>, keys: seq<int>, data: seq<Row>, max: nat, k: int, x: nat)
    requires |keys| == |data| && k !in keys && Matches(c, tags, k, x)
    ensures var list := UpdateList(c, tags, keys, data, max, |keys|);
            forall j :: 0 <= j < |list| ==> list[j].slot != x
  {
    var list := UpdateList(c, tags, keys, data, max, |keys|);
    forall j | 0 <= j < |list| ensures list[j].slot != x {
      var a := UpdateListSound(c, tags, keys, data, max, |keys|, j);
    }
  }

  lemma UpdateRowOfKey(c: Config, tags: seq<int>, rows: seq<Row>, keys: seq<int>, data: seq<Row>, max: nat,
                       combine: (Row, Row) -> Row, i: nat, x: nat)
    requires HashOk(c) && TagsOk(c, tags) && KeysUsable(c, keys) && KeysDistinct(keys)
    requires |keys| == |data| && |rows| == |tags| && i < |keys| && Matches(c, tags, keys[i], x)
    requires SlotsBelow(UpdateList(c, tags, keys, data, max, |keys|), |rows|)
    ensures Combined(rows, UpdateList(c, tags, keys, data, max, |keys|), combine)[x] ==
            if Rank(c, tags, keys, i) < max then combine(rows[x], data[i]) else rows[x]
  {
    var list := UpdateList(c, tags, keys, data, max, |keys|);
    UpdateListDistinct(c, tags, keys, data, max);
    CombinedAt(rows, list, combine, x);
    UpdatedSlot(c, tags, rows, keys, data, max, i, x);
  }

  lemma UpdateRowAt(c: Config, tags: seq<int>, rows: seq<Row>, keys: seq<int>, data: seq<Row>, max: nat,
                    combine: (Row, Row) -> Row, k: int, x: nat)
    requires HashOk(c) && TagsOk(c, tags) && KeysUsable(c, keys) && KeysDistinct(keys) && Usable(c, k)
    requires |keys| == |data| && |rows| == |tags| && Matches(c, tags, k, x)
    requires SlotsBelow(UpdateList(c, tags, keys, data, max, |keys|), |rows|)
    ensures var rows' := Combined(rows, UpdateList(c, tags, keys, data, max, |keys|), combine);
            && (forall i :: 0 <= i < |keys| && keys[i] == k ==>
                  rows'[x] == if Rank(c, tags, keys, i) < max then combine(rows[x], data[i]) else rows[x])
            && (k !in keys ==> rows'[x] == rows[x])
  {
    forall i | 0 <= i < |keys| && keys[i] == k
      ensures Combined(rows, UpdateList(c, tags, keys, data, max, |keys|), combine)[x] ==
              if Rank(c, tags, keys, i) < max then combine(rows[x], data[i]) else rows[x]
    {
      UpdateRowOfKey(c, tags, rows, keys, data, max, combine, i, x);
    }
    if k !in keys {
      UpdateListDistinct(c, tags, keys, data, max);
      OtherSlot(c, tags, keys, data, max, k, x);
      CombinedAt(rows, UpdateList(c, tags, keys, data, max, |keys|), combine, x);
    }
  }

  lemma UpdateRowsOk(c: Config, tags: seq<int>, rows: seq<Row>, keys: seq<int>, data: seq<Row>, max: nat,
                     combine: (Row, Row) -> Row, written: map<int, Row>)
    requires HashOk(c) && TagsOk(c, tags) && KeysUsable(c, keys) && KeysDistinct(keys)
    requires |keys| == |data| && RowsOk(c, tags, rows, written)
    requires SlotsBelow(UpdateList(c, tags, keys, data, max, |keys|), |rows|)
    ensures RowsOk(c, tags, Combined(rows, UpdateList(c, tags, keys, data, max, |keys|), combine),
                   written + Updated(c, tags, rows, keys, data, max, combine))
  {
    forall x | 0 <= x < |tags| && tags[x] != c.sentinel
      ensures var k, u := KeyAt(c, tags, x), Updated(c, tags, rows, keys, data, max, combine);
              Combined(rows, UpdateList(c, tags, keys, data, max, |keys|), combine)[x] ==
              if k in u then u[k] else rows[x]
    {
      var k := KeyAt(c, tags, x);
      assert Occupied(c, tags, x) && Matches(c, tags, k, x);
      MatchUnique(c, tags, k, x, FindSlot(c, tags, k));
      UpdateRowAt(c, tags, rows, keys, data, max, combine, k, x);
    }
  }

  /** Publishing the tags the host already has leaves the device tags equal to the host tags. */
  lemma PublishSame(tags: seq<int>, list: seq<ModifyEntry>, target: seq<int>, sentinel: int)
    requires SlotsBelow(list, |tags|) && SlotsDistinct(list) && |target| == |tags|
    requires forall j :: 0 <= j < |list| ==> target[list[j].slot] == list[j].tag
    requires forall x :: 0 <= x < |tags| && (forall j :: 0 <= j < |list| ==> list[j].slot != x) ==> target[x] == tags[x]
    ensures Published(Cleared(tags, list, sentinel), list) == target
  {
    var cl := Cleared(tags, list, sentinel);
    forall x | 0 <= x < |tags| ensures Published(cl, list)[x] == target[x] {
      ClearedAt(tags, list, sentinel, x);
      PublishedAt(cl, list, x);
    }
  }

  lemma UpdateListTags(c: Config, tags: seq<int>, keys: seq<int>, data: seq<Row>, max: nat)
    requires |keys| == |data| && KeysDistinct(keys)
    ensures var list := UpdateList(c, tags, keys, data, max, |keys|);
            SlotsBelow(list, |tags|) && SlotsDistinct(list) &&
            forall j :: 0 <= j < |list| ==> tags[list[j].slot] == list[j].tag
  {
    var list := UpdateList(c, tags, keys, data, max, |keys|);
    UpdateListDistinct(c, tags, keys, data, max);
    forall j | 0 <= j < |list| ensures tags[list[j].slot] == list[j].tag {
      var a := UpdateListSound(c, tags, keys, data, max, |keys|, j);
    }
  }

  lemma {:induction false} UpdateCutOff(c: Config, tags: seq<int>, keys: seq<int>, data: seq<Row>, max: nat, i: nat,
                                        n: nat)
    requires i <= n <= |keys| == |data|
    requires i == |keys| || |UpdateList(c, tags, keys, data, max, i)| >= max
    ensures UpdateList(c, tags, keys, data, max, n) == UpdateList(c, tags, keys, data, max, i)
  {
    if i < n { UpdateCutOff(c, tags, keys, data, max, i, n - 1); }
  }

  class SetCache {
    const c: Config
    const decayRate: real
    const hTags: array<int>
    const hCounters: array<real>
    const dTags: array<int>
    const rows: array<Row>
    /** The row most recently written to the cache for each key. */
    ghost var written: map<int, Row>

    ghost predicate Shape()
      reads this
    {
      && HashOk(c)
      && hTags.Length == hCounters.Length == dTags.Length == rows.Length == c.numSets * 8
      && hTags != dTags
    }

    /** No set holds a key twice, the device tags are the host tags, and the row of every resident key is the
        last one written for it. */
    ghost predicate Valid()
      reads this, hTags, hCounters, dTags, rows
    {
      && Shape()
      && TagsOk(c, hTags[..])
      && dTags[..] == hTags[..]
      && RowsOk(c, hTags[..], rows[..], written)
    }

    constructor (c: Config, decayRate: real)
      requires HashOk(c)
      ensures Valid() && this.c == c && fresh(hTags) && fresh(hCounters) && fresh(dTags) && fresh(rows)
      ensures forall k :: Usable(c, k) ==> !Resident(c, hTags[..], k)
    {
      this.c := c;
      this.decayRate := decayRate;
      hTags := new int[c.numSets * 8](_ => c.sentinel);
      hCounters := new real[c.numSets * 8](_ => 0.0);
      dTags := new int[c.numSets * 8](_ => c.sentinel);
      rows := new Row[c.numSets * 8](_ => []);
      written := map[];
    }

    /** The scan over the ways of `k`'s set. */
    method FindWay(k: int) returns (x: int)
      requires Shape() && TagsOk(c, hTags[..]) && Usable(c, k)
      ensures x == FindSlot(c, hTags[..], k)
    {
      var base := c.setIndex(k) * 8;
      var j := 0;
      while j < 8
        invariant 0 <= j <= 8
        invariant forall y :: base <= y < base + j ==> !Matches(c, hTags[..], k, y)
      {
        if c.keyOf(hTags[base + j], c.setIndex(k)) == k {
          x := base + j;
          assert Matches(c, hTags[..], k, x);
          MatchUnique(c, hTags[..], k, x, FindSlot(c, hTags[..], k));
          return;
        }
        j := j + 1;
      }
      x := -1;
    }

    /** `std::min_element` over the counters of the set that starts at slot `base`. */
    method LeastCounter(base: nat) returns (y: nat)
      requires base + 8 <= hCounters.Length
      ensures FirstMin(hCounters[..], base, 8, y) && y == MinSlot(hCounters[..], base)
    {
      y := base;
      var j := 1;
      while j < 8
        invariant 1 <= j <= 8 && base <= y < base + j
        invariant FirstMin(hCounters[..], base, j, y)
      {
        if hCounters[base + j] < hCounters[y] { y := base + j; }
        j := j + 1;
      }
      FirstMinExists(hCounters[..], base, 8);
      FirstMinUnique(hCounters[..], base, y, MinSlot(hCounters[..], base));
    }

    /** The tag-invalidate kernel. */
    method ClearTags(list: seq<ModifyEntry>)
      requires Shape() && SlotsBelow(list, c.numSets * 8)
      modifies dTags
      ensures dTags[..] == Cleared(old(dTags[..]), list, c.sentinel)
    {
      for i := 0 to |list|
        invariant dTags[..] == Cleared(old(dTags[..]), list[..i], c.sentinel)
      {
        assert list[..i + 1][..i] == list[..i];
        dTags[list[i].slot] := c.sentinel;
      }
      assert list[..|list|] == list;
    }

    /** The row-update kernels. */
    method WriteRows(list: seq<ModifyEntry>, combine: (Row, Row) -> Row)
      requires Shape() && SlotsBelow(list, c.numSets * 8)
      modifies rows
      ensures rows[..] == Combined(old(rows[..]), list, combine)
    {
      for i := 0 to |list|
        invariant rows[..] == Combined(old(rows[..]), list[..i], combine)
      {
        assert list[..i + 1][..i] == list[..i];
        rows[list[i].slot] := combine(rows[list[i].slot], list[i].src);
      }
      assert list[..|list|] == list;
    }

    /** The tag-update kernel. */
    method PublishTags(list: seq<ModifyEntry>)
      requires Shape() && SlotsBelow(list, c.numSets * 8)
      modifies dTags
      ensures dTags[..] == Published(old(dTags[..]), list)
    {
      for i := 0 to |list|
        invariant dTags[..] == Published(old(dTags[..]), list[..i])
      {
        assert list[..i + 1][..i] == list[..i];
        dTags[list[i].slot] := list[i].tag;
      }
      assert list[..|list|] == list;
    }

    /** The device part of a modify, in the order of the source: clear the tags of all entries, write the rows,
        publish the tags. An invalidation stops after the first step. */
    method Modify(list: seq<ModifyEntry>, invalidation: bool, combine: (Row, Row) -> Row)
      requires Shape() && SlotsBelow(list, c.numSets * 8)
      modifies dTags, rows
      ensures dTags[..] == if invalidation then Cleared(old(dTags[..]), list, c.sentinel)
                           else Published(Cleared(old(dTags[..]), list, c.sentinel), list)
      ensures rows[..] == if invalidation then old(rows[..]) else Combined(old(rows[..]), list, combine)
    {
      if |list| == 0 { return; }
      ClearTags(list);
      if !invalidation {
        WriteRows(list, combine);
        PublishTags(list);
      }
    }

    /** Multiplies every counter by the decay rate. */
    method Decay()
      requires Shape()
      modifies hCounters
      ensures hCounters[..] == Decayed(old(hCounters[..]), decayRate)
      ensures forall i :: 0 <= i < hCounters.Length ==> hCounters[i] == old(hCounters[i]) * decayRate
    {
      ghost var was, target := hCounters[..], Decayed(hCounters[..], decayRate);
      for i := 0 to hCounters.Length
        invariant forall j :: 0 <= j < i ==> hCounters[j] == target[j]
        invariant forall j :: i <= j < hCounters.Length ==> hCounters[j] == was[j]
      {
        hCounters[i] := hCounters[i] * decayRate;
      }
    }

    /** One key of an insert batch on the host. */
    method InsertKey(a: Candidate, pending: map<nat, ModifyEntry>) returns (pending': map<nat, ModifyEntry>)
      requires Shape() && TagsOk(c, hTags[..]) && Usable(c, a.key)
      modifies hTags, hCounters
      ensures Insertion(hTags[..], hCounters[..], pending') ==
              InsertOne(c, Insertion(old(hTags[..]), old(hCounters[..]), pending), a)
    {
      pending' := pending;
      var x := FindWay(a.key);
      if x != -1 {
        hCounters[x] := hCounters[x] + a.priority;
      } else {
        var y := LeastCounter(c.setIndex(a.key) * 8);
        if hCounters[y] <= a.priority && y !in pending {
          hCounters[y] := a.priority;
          hTags[y] := c.tagOf(a.key);
          pending' := pending[y := ModifyEntry(a.row, y, hTags[y])];
        }
      }
    }

    /** The pending entries in the arbitrary order of the hash map. */
    method Drain(pending: map<nat, ModifyEntry>) returns (list: seq<ModifyEntry>)
      requires forall x :: x in pending ==> pending[x].slot == x
      ensures |list| == |pending| && SlotsDistinct(list)
      ensures forall j :: 0 <= j < |list| ==> list[j].slot in pending && list[j] == pending[list[j].slot]
      ensures forall x :: x in pending ==> exists j :: 0 <= j < |list| && list[j].slot == x
    {
      list := [];
      var rest := pending.Keys;
      while rest != {}
        invariant rest <= pending.Keys && |list| + |rest| == |pending.Keys| && SlotsDistinct(list)
        invariant forall j :: 0 <= j < |list| ==>
                    list[j].slot in pending && list[j].slot !in rest && list[j] == pending[list[j].slot]
        invariant forall x :: x in pending && x !in rest ==> exists j :: 0 <= j < |list| && list[j].slot == x
        decreases |rest|
      {
        var x :| x in rest;
        ghost var before := list;
        list := list + [pending[x]];
        rest := rest - {x};
        assert list[|before|].slot == x;
        forall y | y in pending && y !in rest ensures exists j :: 0 <= j < |list| && list[j].slot == y {
          if y != x {
            var j :| 0 <= j < |before| && before[j].slot == y;
            assert list[j].slot == y;
          }
        }
      }
    }

    /** Host metadata and pending entries are those of the first `n` keys of the batch. */
    ghost predicate Inserted(st: Insertion, batch: seq<Candidate>, max: nat, n: nat, pending: map<nat, ModifyEntry>)
      requires Sized(c, st.tags) && Sized(c, st.counters) && n <= |batch|
      reads this, hTags, hCounters
    {
      Insertion(hTags[..], hCounters[..], pending) == InsertUpTo(c, st, batch, max, n)
    }

    method InsertNthKey(ghost st: Insertion, batch: seq<Candidate>, max: nat, i: nat, pending: map<nat, ModifyEntry>)
      returns (pending': map<nat, ModifyEntry>)
      requires Shape() && TagsOk(c, st.tags) && Sized(c, st.counters) && st.pending == map[]
      requires KeysOk(c, batch) && i < |batch| && |pending| < max
      requires Inserted(st, batch, max, i, pending)
      modifies hTags, hCounters
      ensures Inserted(st, batch, max, i + 1, pending')
    {
      InsertNext(c, st, batch, max, i);
      pending' := InsertKey(batch[i], pending);
    }

    /** The host part of an insert: decay, then the keys in order until `max` slots are pending. */
    method InsertTags(batch: seq<Candidate>, max: nat) returns (pending: map<nat, ModifyEntry>)
      requires Shape() && TagsOk(c, hTags[..]) && KeysOk(c, batch)
      modifies hTags, hCounters
      ensures Inserted(Insertion(old(hTags[..]), Decayed(old(hCounters[..]), decayRate), map[]), batch, max, |batch|,
              pending)
    {
      ghost var st := Insertion(hTags[..], Decayed(hCounters[..], decayRate), map[]);
      Decay();
      pending := map[];
      assert Insertion(hTags[..], hCounters[..], pending) == st;
      var i := 0;
      while i < |batch| && |pending| < max
        invariant 0 <= i <= |batch|
        invariant Inserted(st, batch, max, i, pending)
      {
        pending := InsertNthKey(st, batch, max, i, pending);
        i := i + 1;
      }
      CutOff(c, st, batch, max, i, |batch|);
    }

    /** Offers a batch of keys with priorities and rows to the table. At most `max` slots are refilled, each
        once; afterwards the host metadata is that of the batch, the device tags are the host tags and every
        resident key has the row last written for it. */
    method Insert(batch: seq<Candidate>, max: nat) returns (list: seq<ModifyEntry>)
      requires Valid() && KeysOk(c, batch)
      modifies this, hTags, hCounters, dTags, rows
      ensures Valid()
      ensures var st := Insertion(old(hTags[..]), Decayed(old(hCounters[..]), decayRate), map[]);
              var r := InsertUpTo(c, st, batch, max, |batch|);
              && hTags[..] == r.tags && hCounters[..] == r.counters
              && written == old(written) + Placed(c, r, batch)
              && |list| == |r.pending|
      ensures |list| <= max && SlotsDistinct(list)
    {
      ghost var tags0, rows0 := hTags[..], rows[..];
      ghost var st := Insertion(tags0, Decayed(hCounters[..], decayRate), map[]);
      var pending := InsertTags(batch, max);
      ghost var r := Insertion(hTags[..], hCounters[..], pending);
      InsertUpToOk(c, st, batch, max, |batch|);
      PendingBounded(c, st, batch, max, |batch|);
      list := Drain(pending);
      PublishSame(tags0, list, r.tags, c.sentinel);
      Modify(list, false, Replace());
      forall x | 0 <= x < |rows0| ensures rows[x] == if x in pending then pending[x].src else rows0[x] {
        CombinedAt(rows0, list, Replace(), x);
      }
      written := written + Placed(c, r, batch);
      InsertRowsOk(c, tags0, rows0, r, batch, rows[..], old(written));
    }

    /** The host search that update and update_accumulate share. */
    method SearchForUpdate(keys: seq<int>, data: seq<Row>, max: nat) returns (list: seq<ModifyEntry>)
      requires Shape() && TagsOk(c, hTags[..]) && KeysUsable(c, keys) && |keys| == |data|
      ensures list == UpdateList(c, hTags[..], keys, data, max, |keys|)
    {
      list := [];
      var i := 0;
      while i < |keys| && |list| < max
        invariant 0 <= i <= |keys| && |list| <= max
        invariant list == UpdateList(c, hTags[..], keys, data, max, i)
      {
        var x := FindWay(keys[i]);
        if x != -1 { list := list + [ModifyEntry(data[i], x, hTags[x])]; }
        i := i + 1;
      }
      UpdateCutOff(c, hTags[..], keys, data, max, i, |keys|);
    }

    /** Overwrites (or accumulates into) the rows of the resident keys of the batch: exactly those with fewer
        than `max` resident keys before them. Tags do not change. */
    method Update(keys: seq<int>, data: seq<Row>, max: nat, combine: (Row, Row) -> Row) returns (list: seq<ModifyEntry>)
      requires Valid() && KeysUsable(c, keys) && KeysDistinct(keys) && |keys| == |data|
      modifies this, dTags, rows
      ensures Valid() && hTags[..] == old(hTags[..])
      ensures written == old(written) + Updated(c, old(hTags[..]), old(rows[..]), keys, data, max, combine)
      ensures |list| <= max && SlotsDistinct(list)
    {
      ghost var tags, rows0 := hTags[..], rows[..];
      list := SearchForUpdate(keys, data, max);
      UpdateListLength(c, tags, keys, data, max, |keys|);
      UpdateListTags(c, tags, keys, data, max);
      PublishSame(tags, list, tags, c.sentinel);
      UpdateRowsOk(c, tags, rows0, keys, data, max, combine, written);
      Modify(list, false, combine);
      written := written + Updated(c, tags, rows0, keys, data, max, combine);
    }

    /** One key of an invalidation: the scan does not stop at a match. */
    method InvalidateKey(k: int, list: seq<ModifyEntry>) returns (list': seq<ModifyEntry>)
      requires Shape() && TagsOk(c, hTags[..]) && Usable(c, k)
      modifies hTags
      ensures Invalidation(hTags[..], list') == InvalidateOne(c, Invalidation(old(hTags[..]), list), k)
    {
      ghost var tags := hTags[..];
      ghost var x := FindSlot(c, tags, k);
      var base := c.setIndex(k) * 8;
      list' := list;
      for j := 0 to 8
        invariant if 0 <= x < base + j then hTags[..] == tags[x := c.sentinel] &&
                  list' == list + [ModifyEntry([], x, c.sentinel)]
                  else hTags[..] == tags && list' == list
      {
        var y := base + j;
        assert Matches(c, tags, k, y) <==> y == x by {
          if Matches(c, tags, k, y) { MatchUnique(c, tags, k, x, y); }
        }
        assert y != x ==> hTags[y] == tags[y];
        if c.keyOf(hTags[y], c.setIndex(k)) == k {
          hTags[y] := c.sentinel;
          list' := list' + [ModifyEntry([], y, c.sentinel)];
        }
      }
    }

    /** Removes the keys from the table. The entry buffer holds `max` entries and is not checked by the code, so
        the distinct resident keys of the batch must be no more than that; the list then has exactly one entry
        for each of them. */
    method Invalidate(keys: seq<int>, max: nat) returns (list: seq<ModifyEntry>)
      requires Valid() && KeysUsable(c, keys) && |ResidentKeys(c, hTags[..], keys)| <= max
      modifies hTags, dTags, rows
      ensures Valid() && rows[..] == old(rows[..])
      ensures forall q :: Usable(c, q) ==> (Resident(c, hTags[..], q) <==> Resident(c, old(hTags[..]), q) && q !in keys)
      ensures SlotsDistinct(list) && |list| == |ResidentKeys(c, old(hTags[..]), keys)|
    {
      ghost var tags := hTags[..];
      list := InvalidateTags(keys);
      InvalidateUpToOk(c, tags, keys, |keys|);
      InvalidateClears(c, tags, keys, |keys|);
      InvalidateRowsOk(c, tags, rows[..], keys, |keys|, written);
      Modify(list, true, Replace());
      InvalidateList(c, tags, keys, |keys|);
      InvalidateCount(c, tags, keys, |keys|);
      assert keys[..|keys|] == keys;
    }

    method InvalidateTags(keys: seq<int>) returns (list: seq<ModifyEntry>)
      requires Shape() && TagsOk(c, hTags[..]) && KeysUsable(c, keys)
      modifies hTags
      ensures Invalidation(hTags[..], list) == InvalidateUpTo(c, old(hTags[..]), keys, |keys|)
    {
      ghost var tags := hTags[..];
      list := [];
      for i := 0 to |keys|
        invariant Invalidation(hTags[..], list) == InvalidateUpTo(c, tags, keys, i)
      {
        InvalidateUpToOk(c, tags, keys, i);
        InvalidateNext(c, tags, keys, i);
        list := InvalidateKey(keys[i], list);
      }
    }

    /** Marks every slot free on host and device and resets the counters. */
    method Clear()
      requires Valid()
      modifies hTags, hCounters, dTags
      ensures Valid() && rows[..] == old(rows[..])
      ensures forall k :: Usable(c, k) ==> !Resident(c, hTags[..], k)
      ensures forall x :: 0 <= x < hCounters.Length ==> hCounters[x] == 0.0
    {
      for i := 0 to hTags.Length
        invariant forall j :: 0 <= j < i ==> hTags[j] == c.sentinel
      { hTags[i] := c.sentinel; }
      for i := 0 to hCounters.Length
        invariant forall j :: 0 <= j < hTags.Length ==> hTags[j] == c.sentinel
        invariant forall j :: 0 <= j < i ==> hCounters[j] == 0.0
      { hCounters[i] := 0.0; }
      for i := 0 to dTags.Length
        invariant forall j :: 0 <= j < hTags.Length ==> hTags[j] == c.sentinel
        invariant forall j :: 0 <= j < hCounters.Length ==> hCounters[j] == 0.0
        invariant forall j :: 0 <= j < i ==> dTags[j] == c.sentinel
      { dTags[i] := hTags[i]; }
    }

    /** The lookup contract on the device tags and rows: a key is a hit exactly when it is resident, and then the
        row is the one last written for it. */
    lemma LookupIsLastWritten(k: int)
      requires Valid() && Usable(c, k)
      ensures Lookup(c, dTags[..], rows[..], k) ==
              if Resident(c, hTags[..], k) then Some(if k in written then written[k] else []) else None
      ensures Resident(c, hTags[..], k) ==> k in written
    {
      if Resident(c, hTags[..], k) {
        var x :| 0 <= x < |hTags[..]| && Matches(c, hTags[..], k, x);
        var y :| 0 <= y < |hTags[..]| && Matches(c, hTags[..], k, y) &&
          Lookup(c, dTags[..], rows[..], k) == Some(rows[y]);
        MatchUnique(c, hTags[..], k, x, y);
      }
    }
  }
}
