/** What a batch of updates and a batch of invalidations do to the tags of one table, and which entries they
    hand to the device, as values. */
module CacheUpdate {
  import opened CacheSpec

  ghost function KeySet(keys: seq<int>): set<int> {
    set i | 0 <= i < |keys| :: keys[i]
  }

  ghost predicate KeysUsable(c: Config, keys: seq<int>) {
    forall i :: 0 <= i < |keys| ==> Usable(c, keys[i])
  }

  ghost predicate KeysDistinct(keys: seq<int>) {
    forall i, j :: 0 <= i < j < |keys| ==> keys[i] != keys[j]
  }

  ghost predicate SlotsBelow(list: seq<ModifyEntry>, n: nat) {
    forall i :: 0 <= i < |list| ==> list[i].slot < n
  }

  ghost predicate SlotsDistinct(list: seq<ModifyEntry>) {
    forall i, j :: 0 <= i < j < |list| ==> list[i].slot != list[j].slot
  }

  // ---------------------------------------------------------------------------------------------
  // Update.

  /** The entries found by the first `n` keys; the search stops once there are `max`. */
  ghost function UpdateList(c: Config, tags: seq<int>, keys: seq<int>, data: seq<Row>, max: nat,
                            n: nat): seq<ModifyEntry>
    requires n <= |keys| == |data|
    decreases n, 0
  {
    if n == 0 then [] else UpdateNth(c, tags, keys, data, max, n - 1)
  }

  /** The entries after key `i`. */
  ghost function UpdateNth(c: Config, tags: seq<int>, keys: seq<int>, data: seq<Row>, max: nat,
                           i: nat): seq<ModifyEntry>
    requires i < |keys| == |data|
    decreases i, 1
  {
    var list := UpdateList(c, tags, keys, data, max, i);
    var x := FindSlot(c, tags, keys[i]);
    if |list| >= max || x == -1 then list else list + [ModifyEntry(data[i], x, tags[x])]
  }

  /** How many of the first `n` keys are resident. */
  ghost function Rank(c: Config, tags: seq<int>, keys: seq<int>, n: nat): nat
    requires n <= |keys|
  {
    if n == 0 then 0
    else Rank(c, tags, keys, n - 1) + if Resident(c, tags, keys[n - 1]) then 1 else 0
  }

  lemma {:induction false} UpdateListLength(c: Config, tags: seq<int>, keys: seq<int>, data: seq<Row>, max: nat, n: nat)
    requires n <= |keys| == |data|
    ensures |UpdateList(c, tags, keys, data, max, n)| ==
            if Rank(c, tags, keys, n) <= max then Rank(c, tags, keys, n) else max
  {
    if n > 0 { UpdateListLength(c, tags, keys, data, max, n - 1); }
  }

  /** Entry `e` is the one of key `i`. */
  ghost predicate EntryOf(c: Config, tags: seq<int>, keys: seq<int>, data: seq<Row>, i: nat, e: ModifyEntry) {
    i < |keys| == |data| && Matches(c, tags, keys[i], e.slot) && e.slot < |tags| && e.tag == tags[e.slot] &&
      e.src == data[i]
  }

  /** Every entry belongs to a key. */
  lemma {:induction false} UpdateListSound(c: Config, tags: seq<int>, keys: seq<int>, data: seq<Row>, max: nat, n: nat,
                                           j: nat)
    returns (i: nat)
    requires n <= |keys| == |data| && j < |UpdateList(c, tags, keys, data, max, n)|
    ensures i < n && EntryOf(c, tags, keys, data, i, UpdateList(c, tags, keys, data, max, n)[j])
    ensures Rank(c, tags, keys, i) == j
  {
    UpdateListLength(c, tags, keys, data, max, n - 1);
    if j < |UpdateList(c, tags, keys, data, max, n - 1)| {
      i := UpdateListSound(c, tags, keys, data, max, n - 1, j);
    } else {
      i := n - 1;
    }
  }

  /** A resident key has its entry exactly when fewer than `max` resident keys come before it. */
  lemma {:induction false} UpdateListComplete(c: Config, tags: seq<int>, keys: seq<int>, data: seq<Row>, max: nat,
                                              n: nat, i: nat)
    requires HashOk(c) && TagsOk(c, tags) && KeysUsable(c, keys) && n <= |keys| == |data| && i < n
    requires Resident(c, tags, keys[i]) && Rank(c, tags, keys, i) < max
    ensures var list := UpdateList(c, tags, keys, data, max, n);
            Rank(c, tags, keys, i) < |list| && EntryOf(c, tags, keys, data, i, list[Rank(c, tags, keys, i)])
  {
    UpdateListLength(c, tags, keys, data, max, n - 1);
    if i < n - 1 { UpdateListComplete(c, tags, keys, data, max, n - 1, i); }
  }

  /** Distinct keys give distinct slots. */
  lemma UpdateListDistinct(c: Config, tags: seq<int>, keys: seq<int>, data: seq<Row>, max: nat)
    requires |keys| == |data| && KeysDistinct(keys)
    ensures SlotsDistinct(UpdateList(c, tags, keys, data, max, |keys|))
    ensures SlotsBelow(UpdateList(c, tags, keys, data, max, |keys|), |tags|)
  {
    var list := UpdateList(c, tags, keys, data, max, |keys|);
    forall i, j | 0 <= i < j < |list| ensures list[i].slot != list[j].slot {
      var a := UpdateListSound(c, tags, keys, data, max, |keys|, i);
      var b := UpdateListSound(c, tags, keys, data, max, |keys|, j);
    }
    forall i | 0 <= i < |list| ensures list[i].slot < |tags| {
      var a := UpdateListSound(c, tags, keys, data, max, |keys|, i);
    }
  }

  // ---------------------------------------------------------------------------------------------
  // Invalidate.

  datatype Invalidation = Invalidation(tags: seq<int>, list: seq<ModifyEntry>)

  ghost function InvalidateOne(c: Config, st: Invalidation, k: int): (r: Invalidation)
    ensures |r.tags| == |st.tags|
  {
    var x := FindSlot(c, st.tags, k);
    if x == -1 then st
    else Invalidation(st.tags[x := c.sentinel], st.list + [ModifyEntry([], x, c.sentinel)])
  }

  ghost function InvalidateUpTo(c: Config, tags: seq<int>, keys: seq<int>, n: nat): (r: Invalidation)
    requires n <= |keys|
    ensures |r.tags| == |tags|
    decreases n, 0
  {
    if n == 0 then Invalidation(tags, []) else InvalidateNth(c, tags, keys, n - 1)
  }

  /** The state after key `i`. */
  ghost function InvalidateNth(c: Config, tags: seq<int>, keys: seq<int>, i: nat): (r: Invalidation)
    requires i < |keys|
    ensures |r.tags| == |tags|
    decreases i, 1
  {
    InvalidateOne(c, InvalidateUpTo(c, tags, keys, i), keys[i])
  }

  lemma InvalidateNext(c: Config, tags: seq<int>, keys: seq<int>, i: nat)
    requires i < |keys|
    ensures InvalidateUpTo(c, tags, keys, i + 1) == InvalidateOne(c, InvalidateUpTo(c, tags, keys, i), keys[i])
  {
  }

  ghost function ResidentKeys(c: Config, tags: seq<int>, keys: seq<int>): set<int> {
    set k | k in KeySet(keys) && Resident(c, tags, k)
  }

  lemma ClearSlotOk(c: Config, tags: seq<int>, k: int, x: nat)
    requires HashOk(c) && TagsOk(c, tags) && Usable(c, k) && Matches(c, tags, k, x)
    ensures TagsOk(c, tags[x := c.sentinel])
    ensures forall q :: Usable(c, q) ==> (Resident(c, tags[x := c.sentinel], q) <==> Resident(c, tags, q) && q != k)
  {
    var r := tags[x := c.sentinel];
    forall y | 0 <= y < |r| ensures r[y] == c.sentinel || Occupied(c, r, y) {
      if y != x { assert tags[y] == c.sentinel || Occupied(c, tags, y); }
    }
    OthersMiss(c, tags, k, x);
    forall q | Usable(c, q) ensures Resident(c, r, q) <==> Resident(c, tags, q) && q != k {
      if Resident(c, tags, q) && q != k {
        var y :| 0 <= y < |tags| && Matches(c, tags, q, y);
        assert Matches(c, r, q, y);
      }
      if Resident(c, r, q) {
        var y :| 0 <= y < |r| && Matches(c, r, q, y);
        assert Matches(c, tags, q, y);
      }
    }
  }

  /** After the first `n` keys exactly the other keys are still resident. */
  lemma {:induction false} InvalidateUpToOk(c: Config, tags: seq<int>, keys: seq<int>, n: nat)
    requires HashOk(c) && TagsOk(c, tags) && KeysUsable(c, keys) && n <= |keys|
    ensures TagsOk(c, InvalidateUpTo(c, tags, keys, n).tags)
    ensures forall q :: Usable(c, q) ==>
              (Resident(c, InvalidateUpTo(c, tags, keys, n).tags, q) <==> Resident(c, tags, q) && q !in keys[..n])
  {
    if n > 0 {
      InvalidateUpToOk(c, tags, keys, n - 1);
      var st, k := InvalidateUpTo(c, tags, keys, n - 1), keys[n - 1];
      assert keys[..n] == keys[..n - 1] + [k];
      var x := FindSlot(c, st.tags, k);
      if x != -1 { ClearSlotOk(c, st.tags, k, x); }
    }
  }

  /** The slots handed to the device are distinct and hold no key. */
  lemma {:induction false} InvalidateList(c: Config, tags: seq<int>, keys: seq<int>, n: nat)
    requires HashOk(c) && TagsOk(c, tags) && KeysUsable(c, keys) && n <= |keys|
    ensures var st := InvalidateUpTo(c, tags, keys, n);
            && SlotsBelow(st.list, |tags|) && SlotsDistinct(st.list)
            && (forall j :: 0 <= j < |st.list| ==> st.tags[st.list[j].slot] == c.sentinel)
  {
    if n > 0 {
      InvalidateList(c, tags, keys, n - 1);
      InvalidateUpToOk(c, tags, keys, n - 1);
      var st, k := InvalidateUpTo(c, tags, keys, n - 1), keys[n - 1];
      var x := FindSlot(c, st.tags, k);
      if x != -1 { MatchUnique(c, st.tags, k, x, x); }
    }
  }

  /** There are as many of them as distinct resident keys. */
  lemma {:induction false} InvalidateCount(c: Config, tags: seq<int>, keys: seq<int>, n: nat)
    requires HashOk(c) && TagsOk(c, tags) && KeysUsable(c, keys) && n <= |keys|
    ensures |InvalidateUpTo(c, tags, keys, n).list| == |ResidentKeys(c, tags, keys[..n])|
  {
    if n > 0 {
      InvalidateCount(c, tags, keys, n - 1);
      InvalidateUpToOk(c, tags, keys, n - 1);
      var st, k := InvalidateUpTo(c, tags, keys, n - 1), keys[n - 1];
      var before, after := ResidentKeys(c, tags, keys[..n - 1]), ResidentKeys(c, tags, keys[..n]);
      KeySetExtend(keys, n - 1);
      if FindSlot(c, st.tags, k) == -1 {
        assert after == before;
      } else {
        assert Resident(c, st.tags, k);
        assert after == before + {k} && k !in before;
      }
    }
  }

  lemma KeySetExtend(keys: seq<int>, n: nat)
    requires n < |keys|
    ensures KeySet(keys[..n + 1]) == KeySet(keys[..n]) + {keys[n]}
    ensures forall k :: k in KeySet(keys[..n]) <==> k in keys[..n]
  {
    var a, b := keys[..n], keys[..n + 1];
    forall k | k in KeySet(a) + {keys[n]} ensures k in KeySet(b) {
      if k in KeySet(a) {
        var i :| 0 <= i < |a| && a[i] == k;
        assert b[i] == k;
      } else {
        assert b[n] == k;
      }
    }
    forall k | k in KeySet(b) ensures k in KeySet(a) + {keys[n]} {
      var i :| 0 <= i < |b| && b[i] == k;
      if i < n { assert a[i] == k; }
    }
  }
}
