/** The order in which an overflowing partition evicts its keys. */
module EvictionOrder {

  import Common
  import SlotTable

  /** An enumeration of the keys of `metas` outside `rest`, ascending if `sorted`. */
  ghost predicate IsPartialOrder(metas: map<int, int>, sorted: bool, order: seq<int>, rest: set<int>) {
    && rest <= metas.Keys
    && (forall i, j :: 0 <= i < j < |order| ==> order[i] != order[j])
    && (forall i :: 0 <= i < |order| ==> order[i] in metas && order[i] !in rest)
    && (forall k :: k in metas && k !in rest ==> k in order)
    && (sorted ==> forall i, j :: 0 <= i < j < |order| ==> metas[order[i]] <= metas[order[j]])
  }

  function InsertAt(order: seq<int>, p: nat, k: int): seq<int>
    requires p <= |order|
  {
    order[..p] + [k] + order[p..]
  }

  lemma InsertAtOk(metas: map<int, int>, sorted: bool, order: seq<int>, rest: set<int>, p: nat, k: int)
    requires IsPartialOrder(metas, sorted, order, rest) && k in rest && p <= |order|
    requires sorted ==> forall i :: 0 <= i < p ==> metas[order[i]] <= metas[k]
    requires sorted ==> forall i :: p <= i < |order| ==> metas[k] <= metas[order[i]]
    ensures IsPartialOrder(metas, sorted, InsertAt(order, p, k), rest - {k})
  {
    var r := InsertAt(order, p, k);
    forall i | 0 <= i < |r|
      ensures r[i] in metas && r[i] !in rest - {k}
      ensures r[i] == if i == p then k else order[From(p, i)]
    {
    }
    forall i, j | 0 <= i < j < |r|
      ensures r[i] != r[j] && (sorted ==> metas[r[i]] <= metas[r[j]])
    {
      if i == p {
        assert r[j] == order[From(p, j)];
      } else if j == p {
        assert r[i] == order[From(p, i)];
      } else {
        assert From(p, i) < From(p, j) && order[From(p, i)] != order[From(p, j)];
      }
    }
    forall l | l in metas && l !in rest - {k}
      ensures l in r
    {
      if l == k {
        assert r[p] == l;
      } else {
        var i :| 0 <= i < |order| && order[i] == l;
        assert r[if i < p then i else i + 1] == l;
      }
    }
  }

  /** Where element `i != p` of the extended order comes from. */
  function From(p: nat, i: int): int {
    if i < p then i else i - 1
  }

  lemma NonEmpty(keys: set<int>)
    ensures keys == {} || exists k: int :: k in keys
  {
    if forall k: int :: k !in keys {
      assert keys == {};
    }
  }

  /** Where `k` goes in an order that ascends by metadata. */
  method InsertionPoint(metas: map<int, int>, order: seq<int>, k: int) returns (p: nat)
    requires k in metas && (forall i :: 0 <= i < |order| ==> order[i] in metas)
    requires forall i, j :: 0 <= i < j < |order| ==> metas[order[i]] <= metas[order[j]]
    ensures p <= |order|
    ensures forall i :: 0 <= i < p ==> metas[order[i]] <= metas[k]
    ensures forall i :: p <= i < |order| ==> metas[k] <= metas[order[i]]
  {
    p := |order|;
    while p > 0 && metas[k] < metas[order[p - 1]]
      invariant p <= |order|
      invariant forall i :: p <= i < |order| ==> metas[k] <= metas[order[i]]
    {
      p := p - 1;
    }
  }

  /** The keys in the order in which they are evicted: arbitrary, or ascending by metadata with ties in any order. */
  method Enumerate(metas: map<int, int>, sorted: bool) returns (order: seq<int>)
    ensures IsPartialOrder(metas, sorted, order, {})
  {
    order := [];
    var rest := metas.Keys;
    while rest != {}
      invariant IsPartialOrder(metas, sorted, order, rest)
      decreases |rest|
    {
      NonEmpty(rest);
      var k: int :| k in rest;
      var p := |order|;
      if sorted {
        p := InsertionPoint(metas, order, k);
      }
      InsertAtOk(metas, sorted, order, rest, p, k);
      order := InsertAt(order, p, k);
      rest := rest - {k};
    }
  }

  // ---------------------------------------------------------------------------------------------
  // Where a key can be in an order: ties and, without sorting, everything else are left open.

  /** The keys that come after `k` in every order. */
  ghost function Above(metas: map<int, int>, sorted: bool, k: int): set<int>
    requires k in metas
  {
    set x | x in metas && x != k && sorted && metas[x] > metas[k]
  }

  /** The keys that come after `k` in some order. */
  ghost function NotBelow(metas: map<int, int>, sorted: bool, k: int): set<int>
    requires k in metas
  {
    set x | x in metas && x != k && (sorted ==> metas[x] >= metas[k])
  }

  ghost function After(order: seq<int>, i: nat): set<int>
    requires i < |order|
  {
    Elements(order[i + 1..])
  }

  ghost function Elements(xs: seq<int>): set<int> {
    set x | x in xs
  }

  lemma AfterSize(metas: map<int, int>, sorted: bool, order: seq<int>, i: nat)
    requires IsPartialOrder(metas, sorted, order, {}) && i < |order|
    ensures |After(order, i)| == |order| - 1 - i
  {
    SlotTable.EnumerationSize(order[i + 1..]);
  }

  /** The number of keys after `order[i]` is at least that of the larger ones and at most that of those not smaller. */
  lemma AfterBounds(metas: map<int, int>, sorted: bool, order: seq<int>, i: nat)
    requires IsPartialOrder(metas, sorted, order, {}) && i < |order|
    ensures |Above(metas, sorted, order[i])| <= |order| - 1 - i <= |NotBelow(metas, sorted, order[i])|
  {
    var k, after := order[i], After(order, i);
    forall x | x in Above(metas, sorted, k)
      ensures x in after
    {
      assert x in order;
      var j :| 0 <= j < |order| && order[j] == x;
      assert j > i;
      assert order[i + 1..][j - i - 1] == x;
    }
    forall x | x in after
      ensures x in NotBelow(metas, sorted, k)
    {
      var j :| 0 <= j < |order[i + 1..]| && order[i + 1..][j] == x;
      assert order[i + 1 + j] == x;
    }
    AfterSize(metas, sorted, order, i);
    Common.SubsetSize(Above(metas, sorted, k), after);
    Common.SubsetSize(after, NotBelow(metas, sorted, k));
  }

  /** An order of the keys outside `rest`. */
  lemma {:induction false} OrderExists(metas: map<int, int>, sorted: bool, rest: set<int>) returns (order: seq<int>)
    requires rest <= metas.Keys
    ensures IsPartialOrder(metas, sorted, order, rest)
    decreases |metas.Keys - rest|
  {
    var todo := metas.Keys - rest;
    NonEmpty(todo);
    if todo == {} {
      order := [];
    } else {
      var k: int :| k in todo;
      assert metas.Keys - (rest + {k}) == todo - {k};
      var order1 := OrderExists(metas, sorted, rest + {k});
      var p := if sorted then CutAbove(metas, order1, metas[k], |order1|) else 0;
      InsertAtOk(metas, sorted, order1, rest + {k}, p, k);
      order := InsertAt(order1, p, k);
      assert rest + {k} - {k} == rest;
    }
  }

  /** How many of the first `n` keys come before all those with metadata above `v`. */
  ghost function CutAbove(metas: map<int, int>, order: seq<int>, v: int, n: nat): (p: nat)
    requires n <= |order| && (forall i :: 0 <= i < |order| ==> order[i] in metas)
    requires forall i, j :: 0 <= i < j < |order| ==> metas[order[i]] <= metas[order[j]]
    ensures p <= n && (forall i :: 0 <= i < p ==> metas[order[i]] <= v) &&
            (forall i :: p <= i < n ==> metas[order[i]] > v)
  {
    if n == 0 || metas[order[n - 1]] <= v then n else CutAbove(metas, order, v, n - 1)
  }

  /** An order in which exactly `after` come after `k`. */
  lemma OrderAround(metas: map<int, int>, sorted: bool, k: int, rest: seq<int>, p: nat, after: set<int>)
    requires k in metas && IsPartialOrder(metas, sorted, rest, {k}) && p <= |rest|
    requires sorted ==> forall i :: 0 <= i < p ==> metas[rest[i]] <= metas[k]
    requires sorted ==> forall i :: p <= i < |rest| ==> metas[k] <= metas[rest[i]]
    requires forall i :: 0 <= i < |rest| ==> (rest[i] in after <==> i >= p)
    requires forall x :: x in after ==> x in metas && x != k
    ensures var order := InsertAt(rest, p, k);
            IsPartialOrder(metas, sorted, order, {}) && order[p] == k && |order| - 1 - p == |after|
  {
    var order := InsertAt(rest, p, k);
    InsertAtOk(metas, sorted, rest, {k}, p, k);
    assert {k} - {k} == {};
    assert order[p + 1..] == rest[p..];
    forall x
      ensures x in after <==> x in rest[p..]
    {
      if x in after {
        var i :| 0 <= i < |rest| && rest[i] == x;
        assert rest[p..][i - p] == x;
      }
      if x in rest[p..] {
        var i :| 0 <= i < |rest[p..]| && rest[p..][i] == x;
        assert rest[p + i] == x;
      }
    }
    assert After(order, p) == after;
    AfterSize(metas, sorted, order, p);
  }

  /** `k` can be as late as the larger keys allow. */
  lemma LatestOrder(metas: map<int, int>, sorted: bool, k: int) returns (order: seq<int>, i: nat)
    requires k in metas
    ensures IsPartialOrder(metas, sorted, order, {}) && i < |order| && order[i] == k
    ensures |order| - 1 - i == |Above(metas, sorted, k)|
  {
    var rest := OrderExists(metas, sorted, {k});
    i := if sorted then CutAbove(metas, rest, metas[k], |rest|) else |rest|;
    OrderAround(metas, sorted, k, rest, i, Above(metas, sorted, k));
    order := InsertAt(rest, i, k);
  }

  /** `k` can be as early as the smaller keys allow. */
  lemma EarliestOrder(metas: map<int, int>, sorted: bool, k: int) returns (order: seq<int>, i: nat)
    requires k in metas
    ensures IsPartialOrder(metas, sorted, order, {}) && i < |order| && order[i] == k
    ensures |order| - 1 - i == |NotBelow(metas, sorted, k)|
  {
    var rest := OrderExists(metas, sorted, {k});
    i := if sorted then CutAbove(metas, rest, metas[k] - 1, |rest|) else 0;
    OrderAround(metas, sorted, k, rest, i, NotBelow(metas, sorted, k));
    order := InsertAt(rest, i, k);
  }
}
