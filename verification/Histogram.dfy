/** The histogram that turns the keys of a lookup batch into an insert batch: one bin per distinct key, sorted by
    falling count. */
module Histogram {

  /** `data` is the row number the bin's data pointer refers to. */
  datatype Bin = Bin(key: int, count: nat, data: int)

  ghost function Multiplicity(indices: seq<int>, k: int): nat {
    multiset(indices)[k]
  }

  ghost function Total(bins: seq<Bin>): nat {
    if bins == [] then 0 else Total(bins[..|bins| - 1]) + bins[|bins| - 1].count
  }

  /** The row of the first occurrence of `k`, or row `k` itself for a linear table. */
  ghost predicate DataOk(indices: seq<int>, linear: bool, b: Bin) {
    if linear then b.data == b.key
    else 0 <= b.data < |indices| && indices[b.data] == b.key && b.key !in indices[..b.data]
  }

  ghost predicate KeysDistinct(bins: seq<Bin>) {
    forall i, j :: 0 <= i < j < |bins| ==> bins[i].key != bins[j].key
  }

  /** One bin per distinct key, holding the number of its occurrences. */
  ghost predicate BinsOk(indices: seq<int>, linear: bool, bins: seq<Bin>) {
    && KeysDistinct(bins)
    && (forall i :: 0 <= i < |bins| ==>
          bins[i].key in indices && bins[i].count == Multiplicity(indices, bins[i].key) &&
            DataOk(indices, linear, bins[i]))
    && (forall k :: k in indices ==> exists i :: 0 <= i < |bins| && bins[i].key == k)
  }

  ghost predicate Descending(bins: seq<Bin>) {
    forall i, j :: 0 <= i < j < |bins| ==> bins[i].count >= bins[j].count
  }

  lemma {:induction false} TotalUpdate(bins: seq<Bin>, j: nat)
    requires j < |bins|
    ensures Total(bins[j := bins[j].(count := bins[j].count + 1)]) == Total(bins) + 1
  {
    var r, n := bins[j := bins[j].(count := bins[j].count + 1)], |bins| - 1;
    if j == n {
      assert r[..n] == bins[..n];
    } else {
      TotalUpdate(bins[..n], j);
      assert r[..n] == bins[..n][j := bins[j].(count := bins[j].count + 1)];
    }
  }

  lemma {:induction false} TotalConcat(a: seq<Bin>, b: seq<Bin>)
    ensures Total(a + b) == Total(a) + Total(b)
  {
    if b == [] {
      assert a + b == a;
    } else {
      var n := |b| - 1;
      TotalConcat(a, b[..n]);
      assert (a + b)[..|a + b| - 1] == a + b[..n];
    }
  }

  /** Reading one more key. */
  lemma OneMore(indices: seq<int>, i: nat, k: int)
    requires i < |indices|
    ensures Multiplicity(indices[..i + 1], k) == Multiplicity(indices[..i], k) + (if indices[i] == k then 1 else 0)
  {
    assert indices[..i + 1] == indices[..i] + [indices[i]];
  }

  lemma BinsGrow(indices: seq<int>, linear: bool, i: nat, bins: seq<Bin>)
    requires i < |indices| && BinsOk(indices[..i], linear, bins) && indices[i] !in indices[..i]
    ensures BinsOk(indices[..i + 1], linear, bins + [Bin(indices[i], 1, if linear then indices[i] else i)])
  {
    var pre, next, k := indices[..i], indices[..i + 1], indices[i];
    var b := Bin(k, 1, if linear then k else i);
    var r := bins + [b];
    assert next == pre + [k];
    forall j | 0 <= j < |r|
      ensures r[j].key in next && r[j].count == Multiplicity(next, r[j].key) && DataOk(next, linear, r[j])
    {
      OneMore(indices, i, r[j].key);
      if j < |bins| {
        assert bins[j].key in pre;
        assert !linear ==> next[..r[j].data] == pre[..r[j].data];
      } else {
        assert next[..i] == pre;
      }
    }
    forall q | q in next ensures exists j :: 0 <= j < |r| && r[j].key == q {
      if q in pre {
        var j :| 0 <= j < |bins| && bins[j].key == q;
        assert r[j].key == q;
      } else {
        assert r[|bins|].key == q;
      }
    }
  }

  lemma BinsCount(indices: seq<int>, linear: bool, i: nat, bins: seq<Bin>, j: nat)
    requires i < |indices| && BinsOk(indices[..i], linear, bins) && j < |bins| && bins[j].key == indices[i]
    ensures BinsOk(indices[..i + 1], linear, bins[j := bins[j].(count := bins[j].count + 1)])
  {
    var pre, next, k := indices[..i], indices[..i + 1], indices[i];
    var r := bins[j := bins[j].(count := bins[j].count + 1)];
    assert next == pre + [k];
    forall x | 0 <= x < |r|
      ensures r[x].key in next && r[x].count == Multiplicity(next, r[x].key) && DataOk(next, linear, r[x])
    {
      assert r[x].key == bins[x].key && bins[x].key in pre;
      OneMore(indices, i, r[x].key);
      assert DataOk(pre, linear, bins[x]);
      assert !linear ==> next[..r[x].data] == pre[..r[x].data];
    }
    forall q | q in next ensures exists x :: 0 <= x < |r| && r[x].key == q {
      var x :| 0 <= x < |bins| && bins[x].key == q;
      assert r[x].key == q;
    }
  }

  /** `where` maps each key seen so far to its bin. */
  ghost predicate WhereOk(seen: seq<int>, bins: seq<Bin>, where: map<int, nat>) {
    && (forall k :: k in where <==> k in seen)
    && (forall k :: k in where ==> where[k] < |bins| && bins[where[k]].key == k)
  }

  lemma WhereNew(seen: seq<int>, bins: seq<Bin>, where: map<int, nat>, b: Bin)
    requires WhereOk(seen, bins, where) && b.key !in where
    ensures WhereOk(seen + [b.key], bins + [b], where[b.key := |bins|])
  {
  }

  lemma WhereSeen(seen: seq<int>, bins: seq<Bin>, where: map<int, nat>, k: int, b: Bin)
    requires WhereOk(seen, bins, where) && k in where && b.key == k
    ensures where[k] < |bins| && bins[where[k]].key == k
    ensures WhereOk(seen + [k], bins[where[k] := b], where)
  {
  }

  method Collect(indices: seq<int>, linear: bool) returns (bins: seq<Bin>)
    ensures BinsOk(indices, linear, bins) && Total(bins) == |indices|
  {
    bins := [];
    var where: map<int, nat> := map[];
    for i := 0 to |indices|
      invariant BinsOk(indices[..i], linear, bins)
      invariant Total(bins) == i
      invariant WhereOk(indices[..i], bins, where)
    {
      var k := indices[i];
      assert indices[..i + 1] == indices[..i] + [k];
      if k !in where {
        bins, where := AddBin(indices, linear, i, bins, where);
      } else {
        bins := CountKey(indices, linear, i, bins, where);
      }
    }
    assert indices[..|indices|] == indices;
  }

  method AddBin(indices: seq<int>, linear: bool, i: nat, bins: seq<Bin>, where: map<int, nat>)
    returns (bins': seq<Bin>, where': map<int, nat>)
    requires i < |indices| && BinsOk(indices[..i], linear, bins)
    requires WhereOk(indices[..i], bins, where) && indices[i] !in where
    ensures BinsOk(indices[..i + 1], linear, bins') && Total(bins') == Total(bins) + 1
    ensures WhereOk(indices[..i + 1], bins', where')
  {
    var b := Bin(indices[i], 1, if linear then indices[i] else i);
    bins' := bins + [b];
    where' := where[b.key := |bins|];
    WhereNew(indices[..i], bins, where, b);
    assert indices[..i + 1] == indices[..i] + [b.key];
    assert indices[i] !in indices[..i];
    BinsGrow(indices, linear, i, bins);
    TotalConcat(bins, [b]);
  }

  method CountKey(indices: seq<int>, linear: bool, i: nat, bins: seq<Bin>, where: map<int, nat>)
    returns (bins': seq<Bin>)
    requires i < |indices| && BinsOk(indices[..i], linear, bins)
    requires WhereOk(indices[..i], bins, where) && indices[i] in where
    ensures BinsOk(indices[..i + 1], linear, bins') && Total(bins') == Total(bins) + 1
    ensures WhereOk(indices[..i + 1], bins', where)
  {
    var k := indices[i];
    var j := where[k];
    WhereSeen(indices[..i], bins, where, k, Bin(k, 0, 0));
    var b := bins[j].(count := bins[j].count + 1);
    WhereSeen(indices[..i], bins, where, k, b);
    bins' := bins[j := b];
    assert indices[..i + 1] == indices[..i] + [k];
    BinsCount(indices, linear, i, bins, j);
    TotalUpdate(bins, j);
  }

  lemma PermutationKeeps(indices: seq<int>, linear: bool, a: seq<Bin>, b: seq<Bin>)
    requires BinsOk(indices, linear, a) && multiset(a) == multiset(b)
    ensures BinsOk(indices, linear, b)
  {
    forall i | 0 <= i < |b|
      ensures b[i].key in indices && b[i].count == Multiplicity(indices, b[i].key) && DataOk(indices, linear, b[i])
    {
      assert b[i] in multiset(b);
      assert b[i] in a;
    }
    forall k | k in indices ensures exists i :: 0 <= i < |b| && b[i].key == k {
      var j :| 0 <= j < |a| && a[j].key == k;
      assert a[j] in multiset(a);
      assert a[j] in b;
    }
    forall i, j | 0 <= i < j < |b| ensures b[i].key != b[j].key {
      assert b[i] in multiset(a) && b[j] in multiset(a);
      var p :| 0 <= p < |a| && a[p] == b[i];
      var q :| 0 <= q < |a| && a[q] == b[j];
      OneCopy(a, p);
      TwoCopies(b, i, j);
    }
  }

  lemma TwoCopies(b: seq<Bin>, i: nat, j: nat)
    requires i < j < |b|
    ensures b[i] == b[j] ==> multiset(b)[b[i]] >= 2
  {
    assert b == b[..i] + [b[i]] + b[i + 1..j] + [b[j]] + b[j + 1..];
  }

  lemma OneCopy(a: seq<Bin>, p: nat)
    requires KeysDistinct(a) && p < |a|
    ensures multiset(a)[a[p]] == 1
  {
    assert a == a[..p] + [a[p]] + a[p + 1..];
    assert a[p] !in a[..p] && a[p] !in a[p + 1..];
  }

  lemma InsertDescends(bins: seq<Bin>, b: Bin, p: nat)
    requires Descending(bins) && p <= |bins|
    requires forall i :: p <= i < |bins| ==> bins[i].count < b.count
    requires forall i :: 0 <= i < p ==> bins[i].count >= b.count
    ensures Descending(bins[..p] + [b] + bins[p..])
  {
    var r := bins[..p] + [b] + bins[p..];
    assert forall i :: 0 <= i < p ==> r[i] == bins[i];
    assert forall i :: p < i < |r| ==> r[i] == bins[i - 1];
  }

  lemma InsertAt(bins: seq<Bin>, b: Bin, p: nat)
    requires p <= |bins|
    ensures var r := bins[..p] + [b] + bins[p..];
            multiset(r) == multiset(bins) + multiset{b} && Total(r) == Total(bins) + b.count
  {
    assert bins == bins[..p] + bins[p..];
    TotalConcat(bins[..p], bins[p..]);
    TotalConcat(bins[..p] + [b], bins[p..]);
    TotalConcat(bins[..p], [b]);
  }

  /** Puts `b` behind the last bin that is at least as large. */
  method InsertSorted(bins: seq<Bin>, b: Bin) returns (r: seq<Bin>)
    requires Descending(bins)
    ensures Descending(r) && multiset(r) == multiset(bins) + multiset{b} && Total(r) == Total(bins) + b.count
  {
    var p := |bins|;
    while p > 0 && bins[p - 1].count < b.count
      invariant 0 <= p <= |bins|
      invariant forall i :: p <= i < |bins| ==> bins[i].count < b.count
    {
      p := p - 1;
    }
    assert forall i :: 0 <= i < p ==> bins[i].count >= b.count;
    InsertDescends(bins, b, p);
    InsertAt(bins, b, p);
    r := bins[..p] + [b] + bins[p..];
  }

  /** `std::sort` by falling count. */
  method Sort(bins: seq<Bin>) returns (r: seq<Bin>)
    ensures Descending(r) && multiset(r) == multiset(bins) && Total(r) == Total(bins)
  {
    r := [];
    for i := 0 to |bins|
      invariant Descending(r) && multiset(r) == multiset(bins[..i]) && Total(r) == Total(bins[..i])
    {
      assert bins[..i + 1] == bins[..i] + [bins[i]];
      r := InsertSorted(r, bins[i]);
    }
    assert bins[..|bins|] == bins;
  }

  /** The constructor: distinct keys in order of falling priority, each with its share of the batch as priority
      and the data of its first occurrence; the counts add up to the batch. */
  method Build(indices: seq<int>, linear: bool) returns (bins: seq<Bin>, priority: seq<real>)
    ensures BinsOk(indices, linear, bins) && Descending(bins) && Total(bins) == |indices|
    ensures |priority| == |bins|
    ensures forall i :: 0 <= i < |bins| ==>
              |indices| > 0 && priority[i] == (Multiplicity(indices, bins[i].key) as real) / (|indices| as real)
    ensures forall i, j :: 0 <= i < j < |bins| ==> priority[i] >= priority[j]
  {
    var collected := Collect(indices, linear);
    bins := Sort(collected);
    PermutationKeeps(indices, linear, collected, bins);
    priority := [];
    for i := 0 to |bins|
      invariant |priority| == i
      invariant forall j :: 0 <= j < i ==> |indices| > 0 && priority[j] == (bins[j].count as real) / (|indices| as real)
    {
      assert bins[i].key in indices;
      priority := priority + [(bins[i].count as real) / (|indices| as real)];
    }
    forall i, j | 0 <= i < j < |bins| ensures priority[i] >= priority[j] {
      DivMono(bins[i].count, bins[j].count, |indices|);
    }
  }

  lemma DivMono(a: nat, b: nat, n: nat)
    requires a >= b && n > 0
    ensures (a as real) / (n as real) >= (b as real) / (n as real)
  {
    var x, y, m := a as real, b as real, n as real;
    assert x / m - y / m == (x - y) / m;
    assert (x - y) / m >= 0.0;
  }
}
