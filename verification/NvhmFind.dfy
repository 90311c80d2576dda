/** The lookup of one mask word in the nvHashMap-backed table: a plain loop over the clear bits, and a pipelined form
    that keeps a bounded queue of keys whose buckets are being prefetched, with one cursor at the head of the queue and
    one at its tail. Both work on the bits of the word through the operations of module BitMask. */
module NvhmFind {

  import opened BitMask
  import opened Common
  import PF = ParallelFind

  type Row = PF.Row

  type Copying = PF.Copying

  /** The lookup of partition `part`; `base` is the position of bit 0 of the word. */
  datatype Find = Find(keys: seq<int>, partOf: int -> nat, part: nat, table: map<int, Row>, copying: Copying, base: nat)

  /** The local word, the output rows, the copy that is one step behind and the keys whose metadata was updated. */
  datatype Output = Output(mask: nat, values: map<nat, Row>, delayed: Option<(nat, Row)>, touched: seq<int>)

  function KeyAt(f: Find, j: nat): int {
    if f.base + j < |f.keys| then f.keys[f.base + j] else 0
  }

  predicate Mine(f: Find, j: nat) {
    f.partOf(KeyAt(f, j)) == f.part
  }

  /** What both forms do for a resident key. */
  function Hit(f: Find, o: Output, j: nat, row: Row): Output {
    var at := f.base + j;
    var o1 :=
      if f.copying.NoValues? then o
      else if f.copying.Direct? then o.(values := o.values[at := row])
      else o.(values := if o.delayed.Some? then o.values[o.delayed.value.0 := o.delayed.value.1] else o.values,
              delayed := Some((at, row)));
    o1.(touched := o1.touched + [KeyAt(f, j)], mask := Set(o1.mask, j))
  }

  function Probe(f: Find, o: Output, j: nat): Output {
    var key := KeyAt(f, j);
    if key in f.table then Hit(f, o, j, f.table[key]) else o
  }

  /** Probing a list of positions in order. */
  function ProbeAll(f: Find, o: Output, js: seq<nat>): Output
    decreases |js|
  {
    if js == [] then o else ProbeAll(f, Probe(f, o, js[0]), js[1..])
  }

  /** The positions of a word in ascending order, as `next` and `skip` enumerate them. */
  function Positions(x: nat): seq<nat>
    decreases x
  {
    if x == 0 then [] else
      SkipLess(x);
      [Next(x)] + Positions(Skip(x))
  }

  /** Those of this partition. */
  function Own(f: Find, js: seq<nat>): seq<nat> {
    if js == [] then [] else (if Mine(f, js[0]) then [js[0]] else []) + Own(f, js[1..])
  }

  function KeysAt(f: Find, js: seq<nat>): seq<int> {
    seq(|js|, i requires 0 <= i < |js| => KeyAt(f, js[i]))
  }

  /** The positions that a load of `mask` leaves to probe, with `left` keys from the start of the word on. */
  function Clear(mask: nat, left: nat, width: nat): nat
    requires mask < Pow2(width)
  {
    Clip(Invert(mask, width), left, width)
  }

  // ---------------------------------------------------------------------------------------------
  // The plain loop.

  method FindPlain(f: Find, o: Output, left: nat, width: nat) returns (r: Output)
    requires o.mask < Pow2(width)
    ensures r == ProbeAll(f, o, Own(f, Positions(Clear(o.mask, left, width))))
  {
    r := o;
    var head := Clear(o.mask, left, width);
    ghost var goal := ProbeAll(f, o, Own(f, Positions(head)));
    while head > 0
      invariant ProbeAll(f, r, Own(f, Positions(head))) == goal
      decreases head
    {
      var j := Next(head);
      SkipLess(head);
      TakeHead(f, r, head);
      if Mine(f, j) {
        r := ProbeKey(f, r, j, KeyAt(f, j));
      }
      head := Skip(head);
    }
  }

  method ProbeKey(f: Find, o: Output, j: nat, key: int) returns (r: Output)
    requires key == KeyAt(f, j)
    ensures r == Probe(f, o, j)
  {
    r := o;
    if key in f.table {
      r := Hit(f, o, j, f.table[key]);
    }
  }

  lemma TakeHead(f: Find, o: Output, head: nat)
    requires head > 0
    ensures ProbeAll(f, o, Own(f, Positions(head))) ==
            ProbeAll(f, if Mine(f, Next(head)) then Probe(f, o, Next(head)) else o, Own(f, Positions(Skip(head))))
  {
    var js := Positions(head);
    SkipLess(head);
    assert js[0] == Next(head) && js[1..] == Positions(Skip(head));
    var own := Own(f, js);
    if Mine(f, js[0]) {
      assert own[0] == js[0] && own[1..] == Own(f, js[1..]);
    } else {
      assert own == Own(f, js[1..]);
    }
  }

  // ---------------------------------------------------------------------------------------------
  // The queued form.

  predicate Ascending(js: seq<nat>) {
    forall a, b :: 0 <= a < b < |js| ==> js[a] < js[b]
  }

  lemma {:induction false} PositionsOk(x: nat)
    ensures Ascending(Positions(x)) && forall j :: j in Positions(x) <==> j in Bits(x)
    decreases x
  {
    ZeroBits(x);
    if x > 0 {
      SkipLess(x);
      SkipBits(x);
      PositionsOk(Skip(x));
      var js := Positions(Skip(x));
      forall b | 0 <= b < |js|
        ensures Next(x) < js[b]
      {
        assert js[b] in Bits(Skip(x));
      }
    }
  }

  /** An ascending list is determined by its elements. */
  lemma {:induction false} AscendingUnique(xs: seq<nat>, ys: seq<nat>)
    requires Ascending(xs) && Ascending(ys) && forall j :: j in xs <==> j in ys
    ensures xs == ys
  {
    assert ys != [] ==> ys[0] in ys;
    assert xs != [] ==> xs[0] in xs;
    if xs != [] && ys != [] {
      assert xs[0] in ys;
      assert ys[0] in xs;
      assert xs[0] == ys[0];
      forall j
        ensures j in xs[1..] <==> j in ys[1..]
      {
        assert j in xs <==> j == xs[0] || j in xs[1..];
        assert j in ys <==> j == ys[0] || j in ys[1..];
      }
      AscendingUnique(xs[1..], ys[1..]);
      assert xs == [xs[0]] + xs[1..] && ys == [ys[0]] + ys[1..];
    }
  }

  /** Adding a position above all others puts it last. */
  lemma PositionsPush(x: nat, j: nat)
    requires forall i :: i in Positions(x) ==> i < j
    ensures Positions(Set(x, j)) == Positions(x) + [j]
  {
    PositionsOk(x);
    PositionsOk(Set(x, j));
    SetBits(x, j);
    var js := Positions(x);
    forall a | 0 <= a < |js|
      ensures js[a] < j
    {
      assert js[a] in js;
    }
    AscendingUnique(Positions(Set(x, j)), Positions(x) + [j]);
  }

  predicate AllBelow(xs: seq<nat>, ys: seq<nat>) {
    forall a, b :: 0 <= a < |xs| && 0 <= b < |ys| ==> xs[a] < ys[b]
  }

  /** The queue holds the keys at the positions of the tail cursor, which are all below those of the head cursor, and
      what is left to do for both cursors leads to the goal. */
  ghost predicate QueueOk(f: Find, o: Output, hs: seq<nat>, ts: seq<nat>, queue: seq<int>, goal: Output) {
    && queue == KeysAt(f, ts) && Ascending(hs) && AllBelow(ts, hs)
    && ProbeAll(f, o, ts + Own(f, hs)) == goal
  }

  lemma Drop(f: Find, o: Output, hs: seq<nat>, ts: seq<nat>, queue: seq<int>, goal: Output)
    requires QueueOk(f, o, hs, ts, queue, goal) && hs != [] && !Mine(f, hs[0])
    ensures QueueOk(f, o, hs[1..], ts, queue, goal)
  {
    assert Own(f, hs) == Own(f, hs[1..]);
  }

  lemma Enqueue(f: Find, o: Output, hs: seq<nat>, ts: seq<nat>, queue: seq<int>, goal: Output)
    requires QueueOk(f, o, hs, ts, queue, goal) && hs != [] && Mine(f, hs[0])
    ensures QueueOk(f, o, hs[1..], ts + [hs[0]], queue + [KeyAt(f, hs[0])], goal)
  {
    assert ts + Own(f, hs) == (ts + [hs[0]]) + Own(f, hs[1..]);
    assert queue + [KeyAt(f, hs[0])] == KeysAt(f, ts + [hs[0]]);
  }

  /** The front of the queue is the key at the lowest position of the tail cursor. */
  lemma Serve(f: Find, o: Output, hs: seq<nat>, ts: seq<nat>, queue: seq<int>, goal: Output)
    requires QueueOk(f, o, hs, ts, queue, goal) && ts != []
    ensures queue != [] && queue[0] == KeyAt(f, ts[0])
    ensures QueueOk(f, Probe(f, o, ts[0]), hs, ts[1..], queue[1..], goal)
  {
    var all := ts + Own(f, hs);
    assert all[0] == ts[0] && all[1..] == ts[1..] + Own(f, hs);
    assert queue[1..] == KeysAt(f, ts[1..]);
  }

  /** What `next` and `skip` do to the list of positions. */
  lemma PositionsPop(x: nat)
    requires x > 0
    ensures Skip(x) < x && Positions(x) != [] && Positions(x)[0] == Next(x) && Positions(x)[1..] == Positions(Skip(x))
  {
    SkipLess(x);
  }

  /** The cursors and the queue of a lookup in progress. */
  ghost predicate InFlight(f: Find, o: Output, head: nat, tail: nat, queue: seq<int>, goal: Output) {
    QueueOk(f, o, Positions(head), Positions(tail), queue, goal)
  }

  lemma TakeForeign(f: Find, o: Output, head: nat, tail: nat, queue: seq<int>, goal: Output)
    requires InFlight(f, o, head, tail, queue, goal) && head > 0 && !Mine(f, Next(head))
    ensures InFlight(f, o, Skip(head), tail, queue, goal)
  {
    PositionsPop(head);
    Drop(f, o, Positions(head), Positions(tail), queue, goal);
  }

  lemma TakeOwn(f: Find, o: Output, head: nat, tail: nat, queue: seq<int>, goal: Output)
    requires InFlight(f, o, head, tail, queue, goal) && head > 0 && Mine(f, Next(head))
    ensures InFlight(f, o, Skip(head), Set(tail, Next(head)), queue + [KeyAt(f, Next(head))], goal)
  {
    PositionsPop(head);
    var hs, ts := Positions(head), Positions(tail);
    Enqueue(f, o, hs, ts, queue, goal);
    forall i | i in ts
      ensures i < hs[0]
    {
    }
    PositionsPush(tail, hs[0]);
  }

  lemma ServeFront(f: Find, o: Output, head: nat, tail: nat, queue: seq<int>, goal: Output)
    requires InFlight(f, o, head, tail, queue, goal) && queue != []
    ensures tail > 0 && queue[0] == KeyAt(f, Next(tail))
    ensures InFlight(f, Probe(f, o, Next(tail)), head, Skip(tail), queue[1..], goal)
  {
    PositionsPop(tail);
    Serve(f, o, Positions(head), Positions(tail), queue, goal);
  }

  lemma StartFlight(f: Find, o: Output, head: nat)
    ensures InFlight(f, o, head, 0, [], ProbeAll(f, o, Own(f, Positions(head))))
  {
    PositionsOk(head);
    assert [] + Own(f, Positions(head)) == Own(f, Positions(head));
  }

  /** With nothing left under the head cursor and an empty queue the goal is reached. */
  lemma EndFlight(f: Find, o: Output, tail: nat, queue: seq<int>, goal: Output)
    requires InFlight(f, o, 0, tail, queue, goal)
    ensures (tail == 0 <==> queue == []) && (tail == 0 ==> o == goal)
  {
    if tail > 0 {
      PositionsPop(tail);
    }
    assert Positions(tail) + [] == Positions(tail);
  }

  /** The pipelined lookup of a word with a queue of `length` keys gives what the plain loop gives: the same word, rows,
      delayed copy and metadata updates. */
  method FindQueued(f: Find, o: Output, left: nat, width: nat, length: nat) returns (r: Output)
    requires o.mask < Pow2(width) && length >= 1
    ensures r == ProbeAll(f, o, Own(f, Positions(Clear(o.mask, left, width))))
  {
    r := o;
    var head, tail, queue := Clear(o.mask, left, width), 0, [];
    ghost var goal := ProbeAll(f, o, Own(f, Positions(head)));
    StartFlight(f, o, head);
    head, tail, queue := Fill(f, r, head, length, goal);
    r, tail, queue := Stream(f, r, head, tail, queue, length, goal);
    while tail > 0
      invariant InFlight(f, r, 0, tail, queue, goal)
      decreases tail
    {
      EndFlight(f, r, tail, queue, goal);
      ServeFront(f, r, 0, tail, queue, goal);
      SkipLess(tail);
      r := ProbeKey(f, r, Next(tail), queue[0]);
      tail, queue := Skip(tail), queue[1..];
    }
    EndFlight(f, r, tail, queue, goal);
  }

  /** Fills the queue. */
  method Fill(f: Find, o: Output, head0: nat, length: nat, ghost goal: Output)
    returns (head: nat, tail: nat, queue: seq<int>)
    requires length >= 1 && InFlight(f, o, head0, 0, [], goal)
    ensures InFlight(f, o, head, tail, queue, goal) && |queue| <= length && (head == 0 || |queue| == length)
  {
    head, tail, queue := head0, 0, [];
    while head > 0
      invariant InFlight(f, o, head, tail, queue, goal) && |queue| < length
      decreases head
    {
      var j := Next(head);
      SkipLess(head);
      if !Mine(f, j) {
        TakeForeign(f, o, head, tail, queue, goal);
        head := Skip(head);
      } else {
        TakeOwn(f, o, head, tail, queue, goal);
        head, tail := Skip(head), Set(tail, j);
        queue := queue + [KeyAt(f, j)];
        if |queue| == length {
          break;
        }
      }
    }
  }

  /** While the queue is full: serves its front for every key that goes in. */
  method Stream(f: Find, o: Output, head0: nat, tail0: nat, queue0: seq<int>, length: nat, ghost goal: Output)
    returns (r: Output, tail: nat, queue: seq<int>)
    requires length >= 1 && InFlight(f, o, head0, tail0, queue0, goal)
    requires |queue0| <= length && (head0 == 0 || |queue0| == length)
    ensures InFlight(f, r, 0, tail, queue, goal) && |queue| <= length
  {
    var head;
    r, head, tail, queue := o, head0, tail0, queue0;
    while head > 0
      invariant InFlight(f, r, head, tail, queue, goal)
      invariant |queue| <= length && (head == 0 || |queue| == length)
      decreases head
    {
      var j := Next(head);
      SkipLess(head);
      if !Mine(f, j) {
        TakeForeign(f, r, head, tail, queue, goal);
        head := Skip(head);
      } else {
        TakeOwn(f, r, head, tail, queue, goal);
        head, tail := Skip(head), Set(tail, j);
        ghost var queue1 := queue + [KeyAt(f, j)];
        ServeFront(f, r, head, tail, queue1, goal);
        assert queue1[0] == queue[0] && queue1[1..] == queue[1..] + [KeyAt(f, j)];
        r := ProbeKey(f, r, Next(tail), queue[0]);
        tail, queue := Skip(tail), queue[1..] + [KeyAt(f, j)];
      }
    }
  }

  // ---------------------------------------------------------------------------------------------
  // What the probes of a word amount to.

  /** The local word gains exactly the probed positions whose keys are resident. */
  lemma {:induction false} ProbeAllMask(f: Find, o: Output, js: seq<nat>)
    ensures forall j :: j in Bits(ProbeAll(f, o, js).mask) <==> j in Bits(o.mask) || (j in js && KeyAt(f, j) in f.table)
    decreases |js|
  {
    if js != [] {
      var o1 := Probe(f, o, js[0]);
      SetBits(o.mask, js[0]);
      ProbeAllMask(f, o1, js[1..]);
    }
  }

  lemma {:induction false} OwnOk(f: Find, js: seq<nat>)
    ensures forall j :: j in Own(f, js) <==> j in js && Mine(f, j)
  {
    if js != [] {
      OwnOk(f, js[1..]);
    }
  }

  /** Both forms turn on exactly the clear bits below `left` whose keys belong to this partition and are resident. */
  lemma FindFinds(f: Find, o: Output, left: nat, width: nat, j: nat)
    requires o.mask < Pow2(width)
    ensures j in Bits(ProbeAll(f, o, Own(f, Positions(Clear(o.mask, left, width)))).mask) <==>
            j in Bits(o.mask) || (j < left && j < width && f.partOf(KeyAt(f, j)) == f.part && KeyAt(f, j) in f.table)
  {
    var head := Clear(o.mask, left, width);
    PositionsOk(head);
    OwnOk(f, Positions(head));
    ProbeAllMask(f, o, Own(f, Positions(head)));
    InvertBits(o.mask, width);
    ClipBits(Invert(o.mask, width), left, width);
  }

  /** The output rows once the copy that is one step behind has been made. */
  function Settled(o: Output): map<nat, Row> {
    if o.delayed.Some? then o.values[o.delayed.value.0 := o.delayed.value.1] else o.values
  }

  predicate CopyOk(f: Find, o: Output) {
    !f.copying.Delayed? ==> o.delayed == None
  }

  lemma ProbeSettles(f: Find, o: Output, j: nat)
    requires CopyOk(f, o)
    ensures CopyOk(f, Probe(f, o, j))
    ensures Settled(Probe(f, o, j)) ==
            if KeyAt(f, j) in f.table && !f.copying.NoValues? then Settled(o)[f.base + j := f.table[KeyAt(f, j)]]
            else Settled(o)
  {
  }

  /** Key `j` of the word is found. */
  predicate Found(f: Find, js: seq<nat>, at: nat) {
    at >= f.base && at - f.base in js && KeyAt(f, at - f.base) in f.table
  }

  /** The probes write the resident row of every key they find, at the place of that key, and nothing else. */
  lemma {:induction false} ProbeAllRows(f: Find, o: Output, js: seq<nat>, at: nat)
    requires CopyOk(f, o)
    ensures var r, copies := ProbeAll(f, o, js), Found(f, js, at) && !f.copying.NoValues?;
            && CopyOk(f, r) && (at in Settled(r) <==> copies || at in Settled(o))
            && (copies ==> Settled(r)[at] == f.table[KeyAt(f, at - f.base)])
            && (!copies && at in Settled(o) ==> Settled(r)[at] == Settled(o)[at])
    decreases |js|
  {
    if js != [] {
      ProbeSettles(f, o, js[0]);
      ProbeAllRows(f, Probe(f, o, js[0]), js[1..], at);
      assert forall j :: j in js <==> j == js[0] || j in js[1..];
    }
  }

  /** The keys found at the positions `js`, in order. */
  function KeysFound(f: Find, js: seq<nat>): seq<int> {
    if js == [] then []
    else KeysFound(f, js[..|js| - 1]) + if KeyAt(f, js[|js| - 1]) in f.table then [KeyAt(f, js[|js| - 1])] else []
  }

  lemma {:induction false} FoundPush(f: Find, js: seq<nat>)
    requires js != []
    ensures KeysFound(f, js) == (if KeyAt(f, js[0]) in f.table then [KeyAt(f, js[0])] else []) + KeysFound(f, js[1..])
  {
    var n := |js| - 1;
    if n > 0 {
      FoundPush(f, js[..n]);
      assert js[..n][1..] == js[1..][..n - 1];
    } else {
      assert js[..0] == [] && js[1..] == [];
    }
  }

  /** The metadata of exactly the found keys is updated, in the order of their positions. */
  lemma {:induction false} ProbeAllTouched(f: Find, o: Output, js: seq<nat>)
    ensures ProbeAll(f, o, js).touched == o.touched + KeysFound(f, js)
    decreases |js|
  {
    if js == [] {
      assert o.touched + [] == o.touched;
    } else {
      ProbeAllTouched(f, Probe(f, o, js[0]), js[1..]);
      FoundPush(f, js);
    }
  }
}
