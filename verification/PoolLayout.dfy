/** How the cache cuts its two memory pools into the row, tag and counter regions, and where the rows lie. */
module PoolLayout {
  import opened Arith
  import opened Common

  const ALIGN: nat := 16
  const COUNTER_BYTES: nat := 4

  datatype Layout = Layout(
    cacheBytes: nat,    // cache_sz_in_bytes
    width: nat,         // embed_width_in_bytes
    numTables: nat,
    tagBytes: nat,      // sizeof(TagT)
    dataOnHost: bool)

  /** CACHE_ALIGN(x, 16). */
  function Align16(x: nat): (r: nat)
    ensures r % 16 == 0 && x <= r < x + 16 && (r == x <==> x % 16 == 0)
  {
    (x + 15) / 16 * 16
  }

  function TagsPerSet(g: Layout): (r: nat)
    ensures r % 16 == 0 && g.tagBytes * 8 <= r < g.tagBytes * 8 + 16
  {
    Align16(g.tagBytes * 8)
  }

  function RowsPerSet(g: Layout): (r: nat)
    ensures r % 16 == 0 && g.width * 8 <= r < g.width * 8 + 16
  {
    Align16(g.width * 8)
  }

  /** calc_num_sets; the code divides by zero for a configuration without tables or without tag bytes. */
  function NumSets(g: Layout): (r: nat)
    requires g.numTables >= 1 && g.tagBytes >= 1
  {
    Quotient(Quotient(g.cacheBytes, g.numTables), TagsPerSet(g) + RowsPerSet(g))
  }

  function Quotient(x: nat, d: nat): (q: nat)
    requires d >= 1
    ensures q * d <= x < (q + 1) * d
  {
    x / d
  }

  function TagRegion(g: Layout, sets: nat): (r: nat) {
    TagsPerSet(g) * sets * g.numTables
  }

  function DataRegion(g: Layout, sets: nat): (r: nat) {
    RowsPerSet(g) * sets * g.numTables
  }

  function CounterRegion(g: Layout, sets: nat): (r: nat) {
    COUNTER_BYTES * g.numTables * sets * 8
  }

  /** calc_allocation_size. */
  function DeviceBytes(g: Layout, sets: nat): (r: nat) {
    sets * (TagsPerSet(g) + if g.dataOnHost then 0 else RowsPerSet(g)) * g.numTables
  }

  function HostBytes(g: Layout, sets: nat): (r: nat) {
    sets * (TagsPerSet(g) + if g.dataOnHost then RowsPerSet(g) else 0) * g.numTables + CounterRegion(g, sets)
  }

  // ---------------------------------------------------------------------------------------------
  // Arithmetic.

  lemma MulMod16(a: nat, b: nat)
    requires a % 16 == 0
    ensures a * b % 16 == 0
  {
    var q := a / 16;
    assert a * b == (16 * q) * b == 16 * (q * b);
    assert 16 * (q * b) % 16 == 0;
  }

  lemma CounterBytes(tables: nat, sets: nat)
    ensures COUNTER_BYTES * tables * sets * 8 == 32 * (tables * sets)
    ensures COUNTER_BYTES * tables * sets * 8 % 16 == 0
  {
    assert COUNTER_BYTES * tables * sets == 4 * (tables * sets);
  }

  lemma RegionsAligned(g: Layout, sets: nat)
    ensures TagRegion(g, sets) % 16 == 0 && DataRegion(g, sets) % 16 == 0 && CounterRegion(g, sets) % 16 == 0
  {
    MulMod16(TagsPerSet(g), sets);
    MulMod16(TagsPerSet(g) * sets, g.numTables);
    MulMod16(RowsPerSet(g), sets);
    MulMod16(RowsPerSet(g) * sets, g.numTables);
    CounterBytes(g.numTables, sets);
  }

  lemma SizesAdd(g: Layout, sets: nat)
    ensures DeviceBytes(g, sets) == TagRegion(g, sets) + if g.dataOnHost then 0 else DataRegion(g, sets)
    ensures HostBytes(g, sets) ==
            TagRegion(g, sets) + (if g.dataOnHost then DataRegion(g, sets) else 0) + CounterRegion(g, sets)
  {
    Distribute(sets, TagsPerSet(g), RowsPerSet(g), g.numTables);
    Distribute(sets, TagsPerSet(g), 0, g.numTables);
  }

  lemma Distribute(s: nat, t: nat, r: nat, n: nat)
    ensures s * (t + r) * n == t * s * n + r * s * n
  {
    assert s * (t + r) == t * s + r * s;
  }

  /** The device never gets more than the configured size. */
  lemma DeviceFits(g: Layout)
    requires g.numTables >= 1 && g.tagBytes >= 1
    ensures DeviceBytes(g, NumSets(g)) <= g.cacheBytes
  {
    var d := TagsPerSet(g) + RowsPerSet(g);
    var share := Quotient(g.cacheBytes, g.numTables);
    var used := TagsPerSet(g) + if g.dataOnHost then 0 else RowsPerSet(g);
    ShareFits(Quotient(share, d), d, used, share, g.numTables, g.cacheBytes);
  }

  /** One more set would not fit: rows and tags of all tables would take more than the configured size. */
  lemma SetsAreMost(g: Layout)
    requires g.numTables >= 1 && g.tagBytes >= 1
    ensures (NumSets(g) + 1) * (TagsPerSet(g) + RowsPerSet(g)) * g.numTables > g.cacheBytes
  {
    var d, share := TagsPerSet(g) + RowsPerSet(g), Quotient(g.cacheBytes, g.numTables);
    MulMono(share + 1, (NumSets(g) + 1) * d, g.numTables);
  }

  lemma ShareFits(n: nat, d: nat, used: nat, share: nat, tables: nat, cache: nat)
    requires used <= d && n * d <= share && share * tables <= cache
    ensures n * used * tables <= cache
  {
    MulMono(used, d, n);
    assert n * used == used * n && n * d == d * n;
    MulMono(n * used, share, tables);
  }

  // ---------------------------------------------------------------------------------------------
  // Carving the pools.

  /** The result of one allocation: its address, or none, and the next free address of the pool. */
  datatype Carve = Carve(at: Option<nat>, next: nat)

  /** allocate_in_pool with an alignment of 16: `std::align` moves the pointer up; when padding and size do not
      fit the remaining `space`, nothing is allocated. */
  function AllocateInPool(p: nat, space: int, size: nat): (r: Carve)
  {
    var a := Align16(p);
    if (a - p) + size <= space then Carve(Some(a), a + size) else Carve(None, p)
  }

  datatype Regions = Regions(data: Option<nat>, dTags: Option<nat>, hTags: Option<nat>, counters: Option<nat>)

  /** The sequence of allocations of `init` for region sizes `tags`, `data` and `counters`, in pools of
      `deviceBytes` and `hostBytes` bytes that start at `d` and `h`. */
  function CarvePools(dataOnHost: bool, tags: nat, data: nat, counters: nat, deviceBytes: nat, hostBytes: nat,
                      d: nat, h: nat): (r: Regions)
  {
    var dEnd, hEnd := d + deviceBytes, h + hostBytes;
    var rows := if dataOnHost then AllocateInPool(h, hEnd - h, data) else AllocateInPool(d, dEnd - d, data);
    var d1 := if dataOnHost then d else rows.next;
    var h1 := if dataOnHost then rows.next else h;
    var dt := AllocateInPool(d1, dEnd - d1, tags);
    var ht := AllocateInPool(h1, hEnd - h1, tags);
    var ct := AllocateInPool(ht.next, hEnd - ht.next, counters);
    Regions(rows.at, dt.at, ht.at, ct.at)
  }

  /** An allocated region lies between `lo` and `hi`. */
  predicate Within(at: Option<nat>, size: nat, lo: nat, hi: nat) {
    at.Some? ==> lo <= at.value && at.value + size <= hi
  }

  /** One allocated region ends before the next begins. */
  predicate Before(at: Option<nat>, size: nat, next: Option<nat>) {
    at.Some? && next.Some? ==> at.value + size <= next.value
  }

  /** Whatever the sizes of the pools and wherever they start, the regions that are allocated lie in their pools and do
      not overlap. */
  lemma CarvedInside(dataOnHost: bool, tags: nat, data: nat, counters: nat, deviceBytes: nat, hostBytes: nat, d: nat,
                     h: nat)
    ensures var r := CarvePools(dataOnHost, tags, data, counters, deviceBytes, hostBytes, d, h);
            && Within(r.dTags, tags, d, d + deviceBytes) && Within(r.hTags, tags, h, h + hostBytes)
            && Within(r.counters, counters, h, h + hostBytes)
            && (if dataOnHost then Within(r.data, data, h, h + hostBytes) else Within(r.data, data, d, d + deviceBytes))
            && Before(r.data, data, if dataOnHost then r.hTags else r.dTags)
            && (dataOnHost ==> Before(r.data, data, r.counters)) && Before(r.hTags, tags, r.counters)
  {
  }

  function Init(g: Layout, sets: nat, d: nat, h: nat): (r: Regions) {
    CarvePools(g.dataOnHost, TagRegion(g, sets), DataRegion(g, sets), CounterRegion(g, sets),
               DeviceBytes(g, sets), HostBytes(g, sets), d, h)
  }

  /** Start addresses of the regions of a pool that is carved without a gap. */
  function Packed(dataOnHost: bool, tags: nat, data: nat, d: nat, h: nat): (r: Regions) {
    if dataOnHost then Regions(Some(h), Some(d), Some(h + data), Some(h + data + tags))
    else Regions(Some(d), Some(d + data), Some(h), Some(h + tags))
  }

  lemma AlignedStays(p: nat)
    requires p % 16 == 0
    ensures Align16(p) == p
  {
  }

  lemma CarveAligned(dataOnHost: bool, tags: nat, data: nat, counters: nat, d: nat, h: nat)
    requires d % 16 == 0 && h % 16 == 0 && tags % 16 == 0 && data % 16 == 0
    ensures var dev := tags + (if dataOnHost then 0 else data);
            var host := tags + (if dataOnHost then data else 0) + counters;
            CarvePools(dataOnHost, tags, data, counters, dev, host, d, h) == Packed(dataOnHost, tags, data, d, h)
  {
    AlignedStays(d);
    AlignedStays(h);
    AlignedStays(d + data);
    AlignedStays(h + data);
    AlignedStays(h + tags);
    AlignedStays(h + data + tags);
  }

  lemma CarveDeviceIff(dataOnHost: bool, tags: nat, data: nat, counters: nat, hostBytes: nat, d: nat, h: nat)
    requires tags % 16 == 0 && data % 16 == 0
    ensures var dev := tags + (if dataOnHost then 0 else data);
            var r := CarvePools(dataOnHost, tags, data, counters, dev, hostBytes, d, h);
            (r.dTags.Some? && (dataOnHost || r.data.Some?)) <==> d % 16 == 0
  {
    assert d % 16 == 0 <==> Align16(d) == d;
  }

  /** Two regions, the first a multiple of 16 bytes, in a pool of just their size. */
  lemma CarveTwoIff(p: nat, first: nat, second: nat)
    requires first % 16 == 0
    ensures var end := p + first + second;
            var a := AllocateInPool(p, end - p, first);
            a.at.Some? && AllocateInPool(a.next, end - a.next, second).at.Some? <==> p % 16 == 0
  {
    var q := Align16(p);
    var a := AllocateInPool(p, first + second, first);
    if a.at.Some? {
      assert a.next == q + first && Align16(a.next) == a.next by { AlignedStays(q + first); }
    }
  }

  /** A region before them moves nothing if it is allocated at an aligned address. */
  lemma CarveThreeIff(p: nat, zeroth: nat, first: nat, second: nat)
    requires zeroth % 16 == 0 && first % 16 == 0
    ensures var end := p + zeroth + first + second;
            var z := AllocateInPool(p, end - p, zeroth);
            var a := AllocateInPool(z.next, end - z.next, first);
            z.at.Some? && a.at.Some? && AllocateInPool(a.next, end - a.next, second).at.Some? <==> p % 16 == 0
  {
    assert p % 16 == 0 <==> Align16(p) == p;
    if p % 16 == 0 {
      CarveTwoIff(p + zeroth, first, second);
    } else {
      AlignedStays(Align16(p) + zeroth);
      AlignedStays(Align16(p) + zeroth + first);
    }
  }

  lemma CarveHostIff(dataOnHost: bool, tags: nat, data: nat, counters: nat, deviceBytes: nat, d: nat, h: nat)
    requires tags % 16 == 0 && data % 16 == 0
    ensures var host := tags + (if dataOnHost then data else 0) + counters;
            var r := CarvePools(dataOnHost, tags, data, counters, deviceBytes, host, d, h);
            (r.hTags.Some? && r.counters.Some? && (dataOnHost ==> r.data.Some?)) <==> h % 16 == 0
  {
    if dataOnHost {
      CarveThreeIff(h, data, tags, counters);
      assert h + (tags + data + counters) == h + data + tags + counters;
    } else {
      CarveTwoIff(h, tags, counters);
      assert h + (tags + 0 + counters) == h + tags + counters;
    }
  }

  /** With 16-byte aligned pools every region is allocated, the regions of a pool follow each other without a gap,
      and together they fill the pool exactly. */
  lemma AlignedPoolsFit(g: Layout, sets: nat, d: nat, h: nat)
    requires d % 16 == 0 && h % 16 == 0
    ensures Init(g, sets, d, h) == Packed(g.dataOnHost, TagRegion(g, sets), DataRegion(g, sets), d, h)
    ensures DeviceBytes(g, sets) == TagRegion(g, sets) + (if g.dataOnHost then 0 else DataRegion(g, sets))
    ensures HostBytes(g, sets) ==
            TagRegion(g, sets) + (if g.dataOnHost then DataRegion(g, sets) else 0) + CounterRegion(g, sets)
  {
    RegionsAligned(g, sets);
    SizesAdd(g, sets);
    CarveAligned(g.dataOnHost, TagRegion(g, sets), DataRegion(g, sets), CounterRegion(g, sets), d, h);
  }

  /** The pools have no room for padding: the device regions are all allocated exactly when the pool is aligned. */
  lemma DevicePoolFitsIff(g: Layout, sets: nat, d: nat, h: nat)
    ensures (Init(g, sets, d, h).dTags.Some? && (g.dataOnHost || Init(g, sets, d, h).data.Some?)) <==> d % 16 == 0
  {
    RegionsAligned(g, sets);
    SizesAdd(g, sets);
    CarveDeviceIff(g.dataOnHost, TagRegion(g, sets), DataRegion(g, sets), CounterRegion(g, sets),
                   HostBytes(g, sets), d, h);
  }

  /** The same for the host regions, which end with the counters. */
  lemma HostPoolFitsIff(g: Layout, sets: nat, d: nat, h: nat)
    ensures var r := Init(g, sets, d, h);
            (r.hTags.Some? && r.counters.Some? && (g.dataOnHost ==> r.data.Some?)) <==> h % 16 == 0
  {
    RegionsAligned(g, sets);
    SizesAdd(g, sets);
    CarveHostIff(g.dataOnHost, TagRegion(g, sets), DataRegion(g, sets), CounterRegion(g, sets),
                 DeviceBytes(g, sets), d, h);
  }

  // ---------------------------------------------------------------------------------------------
  // Rows.

  /** The byte offset of a row from the start of the data region, as insert and update compute it. */
  function RowOffset(g: Layout, sets: nat, table: nat, set_: nat, way: nat): (r: nat) {
    table * sets * 8 * g.width + (set_ * 8 + way) * g.width
  }

  /** The number of a row among all rows. */
  function RowNumber(sets: nat, table: nat, set_: nat, way: nat): (r: nat) {
    (table * sets + set_) * 8 + way
  }

  lemma OffsetIsNumber(g: Layout, sets: nat, table: nat, set_: nat, way: nat)
    ensures RowOffset(g, sets, table, set_, way) == RowNumber(sets, table, set_, way) * g.width
  {
    var a, b := table * sets * 8, set_ * 8 + way;
    assert (a + b) * g.width == a * g.width + b * g.width;
    assert (table * sets + set_) * 8 == table * sets * 8 + set_ * 8;
  }

  lemma NumberBelow(sets: nat, tables: nat, table: nat, set_: nat, way: nat)
    requires table < tables && set_ < sets && way < 8
    ensures RowNumber(sets, table, set_, way) < tables * sets * 8
  {
    MulMono(table + 1, tables, sets);
    assert (table + 1) * sets == table * sets + sets;
  }

  /** Distinct (table, set, way) triples have distinct rows. */
  lemma NumberInjective(sets: nat, t1: nat, s1: nat, w1: nat, t2: nat, s2: nat, w2: nat)
    requires s1 < sets && s2 < sets && w1 < 8 && w2 < 8
    requires RowNumber(sets, t1, s1, w1) == RowNumber(sets, t2, s2, w2)
    ensures t1 == t2 && s1 == s2 && w1 == w2
  {
    assert t1 * sets + s1 == t2 * sets + s2 && w1 == w2;
    assert (t1 + 1) * sets == t1 * sets + sets;
    assert (t2 + 1) * sets == t2 * sets + sets;
    if t1 < t2 { MulMono(t1 + 1, t2, sets); }
    if t2 < t1 { MulMono(t2 + 1, t1, sets); }
  }

  /** Every row lies inside the data region. */
  lemma RowInside(g: Layout, sets: nat, table: nat, set_: nat, way: nat)
    requires table < g.numTables && set_ < sets && way < 8
    ensures RowOffset(g, sets, table, set_, way) + g.width <= DataRegion(g, sets)
  {
    var n := RowNumber(sets, table, set_, way);
    OffsetIsNumber(g, sets, table, set_, way);
    NumberBelow(sets, g.numTables, table, set_, way);
    RowsFit(n, g.width, RowsPerSet(g), sets, g.numTables);
  }

  lemma RowsFit(n: nat, width: nat, perSet: nat, sets: nat, tables: nat)
    requires n < tables * sets * 8 && width * 8 <= perSet
    ensures n * width + width <= perSet * sets * tables
  {
    var all := tables * sets;
    assert n + 1 <= all * 8;
    MulMono(n + 1, all * 8, width);
    assert (n + 1) * width == n * width + width;
    assert (all * 8) * width == (width * 8) * all;
    MulMono(width * 8, perSet, all);
    assert perSet * all == perSet * sets * tables;
  }

  /** Rows of different (table, set, way) triples never share a byte. */
  lemma RowsDisjoint(g: Layout, sets: nat, t1: nat, s1: nat, w1: nat, t2: nat, s2: nat, w2: nat)
    requires s1 < sets && s2 < sets && w1 < 8 && w2 < 8
    requires (t1, s1, w1) != (t2, s2, w2)
    ensures var a, b := RowOffset(g, sets, t1, s1, w1), RowOffset(g, sets, t2, s2, w2);
            a + g.width <= b || b + g.width <= a
  {
    OffsetIsNumber(g, sets, t1, s1, w1);
    OffsetIsNumber(g, sets, t2, s2, w2);
    if RowNumber(sets, t1, s1, w1) == RowNumber(sets, t2, s2, w2) { NumberInjective(sets, t1, s1, w1, t2, s2, w2); }
    Apart(RowNumber(sets, t1, s1, w1), RowNumber(sets, t2, s2, w2), g.width);
  }

  lemma Apart(m: nat, n: nat, w: nat)
    requires m != n
    ensures m * w + w <= n * w || n * w + w <= m * w
  {
    assert (m + 1) * w == m * w + w && (n + 1) * w == n * w + w;
    if m < n { MulMono(m + 1, n, w); } else { MulMono(n + 1, m, w); }
  }
}
