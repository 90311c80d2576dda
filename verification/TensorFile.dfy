/** The `.nve` table file: a header of 12 bytes, then for every tensor an entry of 32 bytes followed by its data. All
    numbers are little-endian. */
module TensorFile {

  import Arith
  import opened BitMask

  type Byte = x: int | 0 <= x < 256

  const WORD: nat := 0x1_0000_0000_0000_0000

  // ---------------------------------------------------------------------------------------------
  // Numbers.

  function Bytes(x: nat, n: nat): (bs: seq<Byte>)
    ensures |bs| == n
  {
    if n == 0 then [] else [x % 256] + Bytes(x / 256, n - 1)
  }

  function Number(bs: seq<Byte>): nat {
    if bs == [] then 0 else bs[0] + 256 * Number(bs[1..])
  }

  function Limit(n: nat): (m: nat)
    ensures m > 0
  {
    if n == 0 then 1 else 256 * Limit(n - 1)
  }

  lemma {:induction false} NumberOfBytes(x: nat, n: nat)
    requires x < Limit(n)
    ensures Number(Bytes(x, n)) == x
  {
    if n > 0 {
      NumberOfBytes(x / 256, n - 1);
      assert Bytes(x, n)[1..] == Bytes(x / 256, n - 1);
    }
  }

  lemma WordLimit()
    ensures Limit(8) == WORD
  {
    assert Limit(2) == 0x1_0000;
    assert Limit(4) == 0x1_0000_0000;
    assert Limit(6) == 0x1_0000_0000_0000;
  }

  // ---------------------------------------------------------------------------------------------
  // The shape word.

  datatype Tensor = Tensor(name: nat, row: nat, col: nat, elem: nat, data: seq<Byte>)

  /** What the writer accepts: 16 bits of columns, 4 of element size, 44 of rows. */
  predicate ShapeOk(t: Tensor) {
    t.col < 0x1_0000 && t.elem < 0x10 && t.row < 0x1000_0000_0000
  }

  function ByteSize(t: Tensor): nat {
    t.row * t.col * t.elem
  }

  function ShapeWord(t: Tensor): nat {
    Or(Or(t.col, t.elem * Pow2(16)), t.row * Pow2(20))
  }

  /** Numbers in disjoint bit ranges are joined by adding them. */
  lemma {:induction false} OrShifted(x: nat, y: nat, n: nat)
    requires x < Pow2(n)
    ensures Or(x, y * Pow2(n)) == x + y * Pow2(n)
  {
    if n == 0 {
      OrZero(y);
    } else {
      var z := y * Pow2(n - 1);
      assert y * Pow2(n) == 2 * z;
      OrShifted(x / 2, y, n - 1);
      OrEven(x, z);
    }
  }

  lemma {:induction false} OrZero(y: nat)
    ensures Or(0, y) == y
  {
    if y > 0 {
      OrZero(y / 2);
    }
  }

  lemma OrEven(x: nat, z: nat)
    ensures Or(x, 2 * z) == x % 2 + 2 * Or(x / 2, z)
  {
    assert 2 * z / 2 == z && 2 * z % 2 == 0;
  }

  lemma SmallPowers()
    ensures Pow2(16) == 0x1_0000 && Pow2(20) == 0x10_0000
  {
    assert Pow2(4) == 16;
    Pow2Add(4, 4);
    Pow2Add(8, 8);
    Pow2Add(16, 4);
  }

  lemma ShapeWordIs(t: Tensor)
    requires ShapeOk(t)
    ensures ShapeWord(t) == t.col + t.elem * 0x1_0000 + t.row * 0x10_0000 < WORD
  {
    SmallPowers();
    OrShifted(t.col, t.elem, 16);
    OrShifted(t.col + t.elem * 0x1_0000, t.row, 20);
  }

  /** Two accepted shapes with the same word are the same. */
  lemma ShapeWordInjective(s: Tensor, t: Tensor)
    requires ShapeOk(s) && ShapeOk(t) && ShapeWord(s) == ShapeWord(t)
    ensures s.row == t.row && s.col == t.col && s.elem == t.elem
  {
    ShapeWordIs(s);
    ShapeWordIs(t);
  }

  /** The size of an accepted shape fits a word. */
  lemma SizeFits(t: Tensor)
    requires ShapeOk(t)
    ensures ByteSize(t) < WORD
  {
    ProductBound(t.row, t.col, 0x1000_0000_0000, 0x1_0000);
    ProductBound(t.row * t.col, t.elem, 0x1000_0000_0000_0000, 0x10);
  }

  lemma ProductBound(x: nat, y: nat, a: nat, b: nat)
    requires x < a && y < b
    ensures x * y < a * b
  {
    assert x * y <= x * b;
    assert (x + 1) * b <= a * b;
  }

  // ---------------------------------------------------------------------------------------------
  // Entries and files.

  datatype Entry = Entry(shape: nat, name: nat, offset: nat, length: nat)

  function HeaderBytes(): (h: seq<Byte>)
    ensures |h| == 12
  {
    Bytes(0x4e56_4500, 4) + Bytes(0, 4) + Bytes(2, 4)
  }

  function EntryBytes(e: Entry): (bs: seq<Byte>)
    ensures |bs| == 32
  {
    Bytes(e.shape, 8) + Bytes(e.name, 8) + Bytes(e.offset, 8) + Bytes(e.length, 8)
  }

  function EntryOf(bs: seq<Byte>): Entry
    requires |bs| == 32
  {
    Entry(Number(bs[..8]), Number(bs[8..16]), Number(bs[16..24]), Number(bs[24..]))
  }

  lemma FourWords(a: seq<Byte>, b: seq<Byte>, c: seq<Byte>, d: seq<Byte>)
    requires |a| == |b| == |c| == |d| == 8
    ensures var bs := a + b + c + d; bs[..8] == a && bs[8..16] == b && bs[16..24] == c && bs[24..] == d
  {
  }

  lemma WordRoundTrip(x: nat)
    requires x < WORD
    ensures Number(Bytes(x, 8)) == x
  {
    WordLimit();
    NumberOfBytes(x, 8);
  }

  lemma EntryRoundTrip(e: Entry)
    requires e.shape < WORD && e.name < WORD && e.offset < WORD && e.length < WORD
    ensures EntryOf(EntryBytes(e)) == e
  {
    var a, b, c, d := Bytes(e.shape, 8), Bytes(e.name, 8), Bytes(e.offset, 8), Bytes(e.length, 8);
    FourWords(a, b, c, d);
    WordRoundTrip(e.shape);
    WordRoundTrip(e.name);
    WordRoundTrip(e.offset);
    WordRoundTrip(e.length);
  }

  lemma DivDiv(x: nat, m: nat)
    requires m >= 1
    ensures x / (256 * m) == x / 256 / m
  {
    var y := x / 256;
    Arith.DivBound(y, m);
    var q, r := y / m, y % m * 256 + x % 256;
    assert x == 256 * y + x % 256;
    assert 256 * y == q * (256 * m) + 256 * (y % m);
    Arith.ModUnique(x, 256 * m, q, r);
  }

  /** Byte `i` of a number is its digit `i` to the base 256, the lowest first. */
  lemma {:induction false} ByteAt(x: nat, n: nat, i: nat)
    requires i < n
    ensures Bytes(x, n)[i] == x / Limit(i) % 256
  {
    if i > 0 {
      ByteAt(x / 256, n - 1, i - 1);
      DivDiv(x, Limit(i - 1));
    }
  }

  /** The header: the magic number, then version 0.2. */
  lemma HeaderIs()
    ensures HeaderBytes() == [0x00, 0x45, 0x56, 0x4e, 0, 0, 0, 0, 2, 0, 0, 0]
  {
    assert Bytes(0, 4) == [0] + Bytes(0, 3) && Bytes(0, 3) == [0, 0, 0];
    assert Bytes(2, 4) == [2] + Bytes(0, 3);
    assert Bytes(0x4e56_4500, 4) == [0x00, 0x45] + Bytes(0x4e56, 2);
    assert Bytes(0x4e56, 2) == [0x56, 0x4e];
  }

  lemma WordOf(a: seq<Byte>, b: seq<Byte>, c: seq<Byte>, d: seq<Byte>, i: nat)
    requires |a| == |b| == |c| == |d| == 8 && i < 32
    ensures (a + b + c + d)[i]
            == (if i < 8 then a else if i < 16 then b else if i < 24 then c else d)[i % 8]
  {
  }

  lemma EntryByte(e: Entry, i: nat)
    requires i < 32
    ensures var word := if i < 8 then e.shape else if i < 16 then e.name else if i < 24 then e.offset else e.length;
            EntryBytes(e)[i] == word / Limit(i % 8) % 256
  {
    WordOf(Bytes(e.shape, 8), Bytes(e.name, 8), Bytes(e.offset, 8), Bytes(e.length, 8), i);
    var word := if i < 8 then e.shape else if i < 16 then e.name else if i < 24 then e.offset else e.length;
    ByteAt(word, 8, i % 8);
  }

  /** Byte by byte, the entry of a tensor written at `at`: the shape, the name, where the next entry goes and the
      length, eight bytes each. */
  lemma RecordIs(t: Tensor, at: nat, i: nat)
    requires ShapeOk(t) && i < 32
    ensures var word := if i < 8 then t.col + t.elem * 0x1_0000 + t.row * 0x10_0000
                        else if i < 16 then t.name else if i < 24 then at + 32 + |t.data| else |t.data|;
            Record(t, at)[i] == word / Limit(i % 8) % 256
  {
    ShapeWordIs(t);
    EntryByte(EntryAt(t, at), i);
  }

  predicate TensorOk(t: Tensor) {
    ShapeOk(t) && t.name < WORD && |t.data| == ByteSize(t)
  }

  /** The entry of a tensor written at position `at`; `offset` is where the next entry goes. */
  function EntryAt(t: Tensor, at: nat): Entry {
    Entry(ShapeWord(t), t.name, at + 32 + |t.data|, |t.data|)
  }

  function Record(t: Tensor, at: nat): (bs: seq<Byte>)
    ensures |bs| == 32 + |t.data|
  {
    EntryBytes(EntryAt(t, at)) + t.data
  }

  /** The file after the first `n` tensors. */
  function File(ts: seq<Tensor>, n: nat): (bs: seq<Byte>)
    requires n <= |ts|
    ensures |bs| >= 12
  {
    if n == 0 then HeaderBytes() else File(ts, n - 1) + Record(ts[n - 1], |File(ts, n - 1)|)
  }

  // ---------------------------------------------------------------------------------------------
  // Loading.

  datatype Result = Found(data: seq<Byte>) | NotFound | BadVersion | BadEntry | WrongSize | BadData | Diverges

  /** A read stops at the end of the file. */
  function ReadAt(bytes: seq<Byte>, pos: nat, n: nat): (bs: seq<Byte>)
    ensures |bs| <= n
  {
    if pos >= |bytes| then [] else if pos + n <= |bytes| then bytes[pos..pos + n] else bytes[pos..]
  }

  lemma {:induction false} SeenBound(seen: set<nat>, n: nat)
    requires forall p :: p in seen ==> p < n
    ensures |seen| <= n
  {
    if n > 0 {
      SeenBound(seen - {n - 1}, n - 1);
    } else {
      assert seen == {};
    }
  }

  predicate Fits(bytes: seq<Byte>, pos: nat) {
    pos + 32 <= |bytes|
  }

  /** The entries that can be read, by position. */
  function Entries(bytes: seq<Byte>): map<nat, Entry> {
    map pos: nat | pos < |bytes| && Fits(bytes, pos) :: EntryOf(bytes[pos..pos + 32])
  }

  /** The search for a name from the entry at `pos` on. It follows the offsets of the entries; `seen` are the positions
      visited, and a second visit means that the search never ends. */
  function Scan(bytes: seq<Byte>, entries: map<nat, Entry>, pos: nat, name: nat, size: nat, seen: set<nat>): Result
    requires forall p :: p in seen ==> p < |bytes|
    decreases |bytes| - |seen|
  {
    if pos >= |bytes| then NotFound
    else if pos !in entries then BadEntry
    else if pos in seen then Diverges
    else
      var e := entries[pos];
      if e.name == name then
        if e.length != size then WrongSize
        else if |ReadAt(bytes, pos + 32, size)| == size then Found(ReadAt(bytes, pos + 32, size))
        else BadData
      else
        SeenBound(seen + {pos}, |bytes|);
        Scan(bytes, entries, e.offset, name, size, seen + {pos})
  }

  function Load(bytes: seq<Byte>, name: nat, size: nat): Result {
    if ReadAt(bytes, 0, 12) != HeaderBytes() then BadVersion else Scan(bytes, Entries(bytes), 12, name, size, {})
  }

  /** What a load should give: the first tensor with the name, if the size is right. */
  function Expected(ts: seq<Tensor>, i: nat, name: nat, size: nat): Result
    requires i <= |ts|
    decreases |ts| - i
  {
    if i == |ts| then NotFound
    else if ts[i].name == name then if |ts[i].data| == size then Found(ts[i].data) else WrongSize
    else Expected(ts, i + 1, name, size)
  }

  lemma {:induction false} FilePrefix(ts: seq<Tensor>, i: nat, n: nat)
    requires i <= n <= |ts|
    ensures |File(ts, i)| <= |File(ts, n)| && File(ts, n)[..|File(ts, i)|] == File(ts, i)
    decreases n
  {
    if i < n {
      FilePrefix(ts, i, n - 1);
      var a, b := File(ts, n - 1), File(ts, n);
      assert b[..|a|] == a;
      assert b[..|File(ts, i)|] == a[..|File(ts, i)|];
    }
  }

  lemma ReadWithin(f: seq<Byte>, a: seq<Byte>, e: seq<Byte>, d: seq<Byte>)
    requires |a| + |e| + |d| <= |f| && f[..|a| + |e| + |d|] == a + (e + d)
    ensures ReadAt(f, |a|, |e|) == e && ReadAt(f, |a| + |e|, |d|) == d
  {
    var n := |a| + |e| + |d|;
    assert f[|a|..|a| + |e|] == f[..n][|a|..|a| + |e|] == e;
    assert f[|a| + |e|..n] == f[..n][|a| + |e|..] == d;
  }

  /** The entry and the data of tensor `i` are where the file before it ends. */
  lemma RecordAt(ts: seq<Tensor>, i: nat, f: seq<Byte>, at: nat)
    requires i < |ts| && f == File(ts, |ts|) && at == |File(ts, i)|
    ensures at + 32 + |ts[i].data| == |File(ts, i + 1)| <= |f|
    ensures ReadAt(f, at, 32) == EntryBytes(EntryAt(ts[i], at))
    ensures ReadAt(f, at + 32, |ts[i].data|) == ts[i].data
  {
    FilePrefix(ts, i + 1, |ts|);
    ReadWithin(f, File(ts, i), EntryBytes(EntryAt(ts[i], at)), ts[i].data);
  }

  lemma EntryFits(t: Tensor, at: nat)
    requires TensorOk(t) && at + 32 + |t.data| < WORD
    ensures EntryOf(EntryBytes(EntryAt(t, at))) == EntryAt(t, at)
  {
    SizeFits(t);
    ShapeWordIs(t);
    EntryRoundTrip(EntryAt(t, at));
  }

  /** Where the record of tensor `i` starts. */
  function Start(ts: seq<Tensor>, i: nat): nat
    requires i <= |ts|
  {
    if i == 0 then 12 else Start(ts, i - 1) + 32 + |ts[i - 1].data|
  }

  lemma {:induction false} StartIs(ts: seq<Tensor>, i: nat)
    requires i <= |ts|
    ensures |File(ts, i)| == Start(ts, i)
  {
    if i > 0 {
      StartIs(ts, i - 1);
    }
  }

  /** The file holds the record of a tensor at a position. */
  ghost predicate Holds(f: seq<Byte>, entries: map<nat, Entry>, t: Tensor, at: nat) {
    && at < |f| && at in entries && ReadAt(f, at + 32, |t.data|) == t.data
    && var e := entries[at]; e.name == t.name && e.offset == at + 32 + |t.data| && e.length == |t.data|
  }

  /** The file is a chain of records from its header to its end. */
  ghost predicate IsChain(f: seq<Byte>, entries: map<nat, Entry>, ts: seq<Tensor>) {
    Start(ts, |ts|) == |f| && forall i :: 0 <= i < |ts| ==> IsLink(f, entries, ts, i)
  }

  ghost predicate IsLink(f: seq<Byte>, entries: map<nat, Entry>, ts: seq<Tensor>, i: nat)
    requires i < |ts|
  {
    Holds(f, entries, ts[i], Start(ts, i))
  }

  lemma FileHolds(ts: seq<Tensor>, i: nat, f: seq<Byte>, at: nat)
    requires i < |ts| && f == File(ts, |ts|) && at == |File(ts, i)| && TensorOk(ts[i]) && |f| < WORD
    ensures Holds(f, Entries(f), ts[i], at)
  {
    RecordAt(ts, i, f, at);
    EntryFits(ts[i], at);
    HoldsFrom(f, ts[i], at, EntryBytes(EntryAt(ts[i], at)), EntryAt(ts[i], at));
  }

  lemma HoldsFrom(f: seq<Byte>, t: Tensor, at: nat, bs: seq<Byte>, e: Entry)
    requires |bs| == 32 && ReadAt(f, at, 32) == bs && EntryOf(bs) == e && ReadAt(f, at + 32, |t.data|) == t.data
    requires e.name == t.name && e.offset == at + 32 + |t.data| && e.length == |t.data|
    ensures Holds(f, Entries(f), t, at)
  {
    assert f[at..at + 32] == bs;
  }

  lemma FileIsChain(ts: seq<Tensor>)
    requires |File(ts, |ts|)| < WORD && forall j :: 0 <= j < |ts| ==> TensorOk(ts[j])
    ensures IsChain(File(ts, |ts|), Entries(File(ts, |ts|)), ts)
  {
    var f := File(ts, |ts|);
    StartIs(ts, |ts|);
    forall i | 0 <= i < |ts|
      ensures IsLink(f, Entries(f), ts, i)
    {
      StartIs(ts, i);
      FileHolds(ts, i, f, Start(ts, i));
    }
  }

  lemma ScanHit(f: seq<Byte>, entries: map<nat, Entry>, t: Tensor, at: nat, size: nat, seen: set<nat>)
    requires (forall p :: p in seen ==> p < |f|) && at !in seen && Holds(f, entries, t, at)
    ensures Scan(f, entries, at, t.name, size, seen) == if |t.data| == size then Found(t.data) else WrongSize
  {
  }

  lemma ScanMiss(f: seq<Byte>, entries: map<nat, Entry>, t: Tensor, at: nat, name: nat, size: nat, seen: set<nat>)
    requires (forall p :: p in seen ==> p < |f|) && at !in seen && Holds(f, entries, t, at) && name != t.name
    ensures Scan(f, entries, at, name, size, seen) == Scan(f, entries, at + 32 + |t.data|, name, size, seen + {at})
  {
  }

  lemma {:induction false} ScanChain(ts: seq<Tensor>, f: seq<Byte>, entries: map<nat, Entry>, i: nat, at: nat,
                                     name: nat, size: nat, seen: set<nat>)
    requires IsChain(f, entries, ts) && i <= |ts| && at == Start(ts, i)
    requires forall p :: p in seen ==> p < at && p < |f|
    ensures Scan(f, entries, at, name, size, seen) == Expected(ts, i, name, size)
    decreases |ts| - i
  {
    if i < |ts| {
      var t := ts[i];
      assert IsLink(f, entries, ts, i);
      if t.name == name {
        ScanHit(f, entries, t, at, size, seen);
      } else {
        ScanMiss(f, entries, t, at, name, size, seen);
        ScanChain(ts, f, entries, i + 1, at + 32 + |t.data|, name, size, seen + {at});
      }
    }
  }

  /** Writing a header and any tensors and loading a name gives the data of the first tensor with it, reports a wrong
      size, or finds nothing; the search ends. */
  lemma RoundTrip(ts: seq<Tensor>, name: nat, size: nat)
    requires |File(ts, |ts|)| < WORD && forall j :: 0 <= j < |ts| ==> TensorOk(ts[j])
    ensures Load(File(ts, |ts|), name, size) == Expected(ts, 0, name, size)
  {
    var f := File(ts, |ts|);
    FilePrefix(ts, 0, |ts|);
    FileIsChain(ts);
    ScanChain(ts, f, Entries(f), 0, 12, name, size, {});
  }

  lemma {:induction false} ExpectedAt(ts: seq<Tensor>, j: nat, i: nat)
    requires j <= i < |ts| && forall k :: j <= k < i ==> ts[k].name != ts[i].name
    ensures Expected(ts, j, ts[i].name, |ts[i].data|) == Found(ts[i].data)
    decreases i - j
  {
    if j < i {
      ExpectedAt(ts, j + 1, i);
    }
  }

  /** A caller that asks for a written tensor with its shape gets its data, unless an earlier tensor has the name. */
  lemma LoadsTensor(ts: seq<Tensor>, i: nat, size: nat)
    requires |File(ts, |ts|)| < WORD && forall j :: 0 <= j < |ts| ==> TensorOk(ts[j])
    requires i < |ts| && forall j :: 0 <= j < i ==> ts[j].name != ts[i].name
    requires size == ts[i].row * ts[i].col * ts[i].elem
    ensures Load(File(ts, |ts|), ts[i].name, size) == Found(ts[i].data)
  {
    assert size == ByteSize(ts[i]) == |ts[i].data|;
    ExpectedAt(ts, 0, i);
    RoundTrip(ts, ts[i].name, size);
  }

  // ---------------------------------------------------------------------------------------------
  // When the search ends.

  /** The position of the search after `n` entries, as long as there is an entry. */
  function Visit(entries: map<nat, Entry>, start: nat, n: nat): nat {
    if n == 0 then start
    else
      var at := Visit(entries, start, n - 1);
      if at in entries then entries[at].offset else at
  }

  /** At its `i`th position the search finds an entry of another name and follows it. */
  predicate GoesOn(bytes: seq<Byte>, entries: map<nat, Entry>, start: nat, name: nat, i: nat) {
    var at := Visit(entries, start, i);
    at < |bytes| && at in entries && entries[at].name != name
  }

  /** The search follows `n` entries. */
  ghost predicate Follows(bytes: seq<Byte>, entries: map<nat, Entry>, start: nat, name: nat, n: nat) {
    forall i :: 0 <= i < n ==> GoesOn(bytes, entries, start, name, i)
  }

  /** The search comes back to a position it has been at. */
  ghost predicate Repeats(bytes: seq<Byte>, entries: map<nat, Entry>, start: nat, name: nat) {
    exists i: nat, n: nat ::
      i < n && Follows(bytes, entries, start, name, n) && Visit(entries, start, i) == Visit(entries, start, n)
  }

  ghost predicate NeverEnds(bytes: seq<Byte>, entries: map<nat, Entry>, start: nat, name: nat) {
    forall n: nat :: GoesOn(bytes, entries, start, name, n)
  }

  /** `at` is one of the first `n` positions. */
  ghost predicate Visited(entries: map<nat, Entry>, start: nat, n: nat, at: nat) {
    exists i: nat :: i < n && Visit(entries, start, i) == at
  }

  lemma VisitedNext(entries: map<nat, Entry>, start: nat, n: nat, at: nat)
    requires Visited(entries, start, n, at) || at == Visit(entries, start, n)
    ensures Visited(entries, start, n + 1, at)
  {
    if Visited(entries, start, n, at) {
      var i: nat :| i < n && Visit(entries, start, i) == at;
      assert i < n + 1;
    }
  }

  /** A search that follows entries for ever is told to diverge. */
  lemma {:induction false} EndlessDiverges(bytes: seq<Byte>, entries: map<nat, Entry>, start: nat, name: nat, size: nat,
                                           n: nat, seen: set<nat>)
    requires NeverEnds(bytes, entries, start, name) && forall p :: p in seen ==> p < |bytes|
    ensures Scan(bytes, entries, Visit(entries, start, n), name, size, seen) == Diverges
    decreases |bytes| - |seen|
  {
    var at := Visit(entries, start, n);
    assert GoesOn(bytes, entries, start, name, n);
    if at !in seen {
      SeenBound(seen + {at}, |bytes|);
      EndlessDiverges(bytes, entries, start, name, size, n + 1, seen + {at});
    }
  }

  /** A search that is told to diverge has come back to a position. */
  lemma {:induction false} DivergesRepeats(bytes: seq<Byte>, entries: map<nat, Entry>, start: nat, name: nat, size: nat,
                                           n: nat, seen: set<nat>)
    requires forall p :: p in seen ==> p < |bytes| && Visited(entries, start, n, p)
    requires Follows(bytes, entries, start, name, n)
    requires Scan(bytes, entries, Visit(entries, start, n), name, size, seen) == Diverges
    ensures Repeats(bytes, entries, start, name)
    decreases |bytes| - |seen|
  {
    var at := Visit(entries, start, n);
    if at in seen {
      var i: nat :| i < n && Visit(entries, start, i) == at;
      assert Follows(bytes, entries, start, name, n) && Visit(entries, start, i) == Visit(entries, start, n);
    } else {
      assert GoesOn(bytes, entries, start, name, n);
      forall p | p in seen + {at}
        ensures Visited(entries, start, n + 1, p)
      {
        VisitedNext(entries, start, n, p);
      }
      SeenBound(seen + {at}, |bytes|);
      DivergesRepeats(bytes, entries, start, name, size, n + 1, seen + {at});
    }
  }

  lemma {:induction false} VisitPeriod(entries: map<nat, Entry>, start: nat, i: nat, n: nat, m: nat)
    requires i < n <= m && Visit(entries, start, i) == Visit(entries, start, n)
    ensures Visit(entries, start, m) == Visit(entries, start, m - (n - i))
    decreases m - n
  {
    if m > n {
      VisitPeriod(entries, start, i, n, m - 1);
    }
  }

  /** A search that comes back to a position never ends. */
  lemma {:induction false} RepeatsGoesOn(bytes: seq<Byte>, entries: map<nat, Entry>, start: nat, name: nat, i: nat,
                                         n: nat, m: nat)
    requires i < n && Follows(bytes, entries, start, name, n) && Visit(entries, start, i) == Visit(entries, start, n)
    ensures GoesOn(bytes, entries, start, name, m)
    decreases m
  {
    if m >= n {
      VisitPeriod(entries, start, i, n, m);
      RepeatsGoesOn(bytes, entries, start, name, i, n, m - (n - i));
    }
  }

  /** A search never ends, comes back to a position, and is told to diverge: each if and only if the others. */
  lemma DivergesIff(bytes: seq<Byte>, entries: map<nat, Entry>, start: nat, name: nat, size: nat)
    ensures Scan(bytes, entries, start, name, size, {}) == Diverges <==> Repeats(bytes, entries, start, name)
    ensures Scan(bytes, entries, start, name, size, {}) == Diverges <==> NeverEnds(bytes, entries, start, name)
  {
    assert Visit(entries, start, 0) == start;
    if Scan(bytes, entries, start, name, size, {}) == Diverges {
      DivergesRepeats(bytes, entries, start, name, size, 0, {});
    }
    if Repeats(bytes, entries, start, name) {
      var i: nat, n: nat :|
        i < n && Follows(bytes, entries, start, name, n) && Visit(entries, start, i) == Visit(entries, start, n);
      forall m: nat
        ensures GoesOn(bytes, entries, start, name, m)
      {
        RepeatsGoesOn(bytes, entries, start, name, i, n, m);
      }
    }
    if NeverEnds(bytes, entries, start, name) {
      EndlessDiverges(bytes, entries, start, name, size, 0, {});
    }
  }

  /** Loading never ends if and only if the file has the right header and the chain of entries that the search follows
      from there comes back to itself before it meets the name. */
  lemma LoadEndsIff(bytes: seq<Byte>, name: nat, size: nat)
    ensures Load(bytes, name, size) == Diverges <==>
            ReadAt(bytes, 0, 12) == HeaderBytes() && Repeats(bytes, Entries(bytes), 12, name)
  {
    DivergesIff(bytes, Entries(bytes), 12, name, size);
  }

  /** Every entry that the search follows points forward. */
  ghost predicate PointsForward(bytes: seq<Byte>, entries: map<nat, Entry>, start: nat, name: nat) {
    forall n: nat :: GoesOn(bytes, entries, start, name, n) ==> Visit(entries, start, n + 1) > Visit(entries, start, n)
  }

  lemma {:induction false} ForwardAscends(bytes: seq<Byte>, entries: map<nat, Entry>, start: nat, name: nat, i: nat,
                                          n: nat)
    requires PointsForward(bytes, entries, start, name) && i < n && Follows(bytes, entries, start, name, n)
    ensures Visit(entries, start, i) < Visit(entries, start, n)
    decreases n
  {
    assert GoesOn(bytes, entries, start, name, n - 1);
    if i < n - 1 {
      ForwardAscends(bytes, entries, start, name, i, n - 1);
    }
  }

  /** If the entries on its way point forward, a search ends, whatever else the file holds. */
  lemma ForwardEnds(bytes: seq<Byte>, entries: map<nat, Entry>, start: nat, name: nat, size: nat)
    requires PointsForward(bytes, entries, start, name)
    ensures Scan(bytes, entries, start, name, size, {}) != Diverges
  {
    DivergesIff(bytes, entries, start, name, size);
    forall i: nat, n: nat | i < n && Follows(bytes, entries, start, name, n)
      ensures Visit(entries, start, i) != Visit(entries, start, n)
    {
      ForwardAscends(bytes, entries, start, name, i, n);
    }
  }

  /** A file of 44 bytes in which the search for a name does not end: its only entry, of name 1, points to itself. */
  lemma SelfLoop(size: nat)
    ensures Load(HeaderBytes() + EntryBytes(Entry(0, 1, 12, 0)), 2, size) == Diverges
  {
    var e := Entry(0, 1, 12, 0);
    var bytes := HeaderBytes() + EntryBytes(e);
    EntryRoundTrip(e);
    assert ReadAt(bytes, 0, 12) == HeaderBytes();
    assert bytes[12..44] == EntryBytes(e) && Fits(bytes, 12);
    SelfLoops(bytes, Entries(bytes), size);
  }

  lemma SelfLoops(bytes: seq<Byte>, entries: map<nat, Entry>, size: nat)
    requires |bytes| == 44 && 12 in entries && entries[12].offset == 12 && entries[12].name != 2
    ensures Scan(bytes, entries, 12, 2, size, {}) == Diverges
  {
    DivergesIff(bytes, entries, 12, 2, size);
    assert Visit(entries, 12, 0) == 12 && Visit(entries, 12, 1) == 12;
    assert GoesOn(bytes, entries, 12, 2, 0);
    assert Follows(bytes, entries, 12, 2, 1);
  }
}
