/** The slot buffers of a host table partition: slots of `stride` cells, each holding a value of `maxValue` cells,
    followed by a metadata cell where the eviction policy keeps one. */
module SlotMemory {

  import Arith

  type Buffers = seq<seq<int>>

  datatype Slot = Slot(buffer: nat, index: nat)

  datatype Geometry = Geometry(maxValue: nat, hasMeta: bool, stride: nat, perBuffer: nat)

  /** A slot has room for the value and its metadata. */
  predicate GeometryOk(g: Geometry) {
    g.maxValue + (if g.hasMeta then 1 else 0) <= g.stride
  }

  predicate SlotOk(g: Geometry, buffers: Buffers, slot: Slot) {
    slot.buffer < |buffers| && slot.index < g.perBuffer
  }

  predicate BuffersOk(g: Geometry, buffers: Buffers) {
    forall b :: 0 <= b < |buffers| ==> |buffers[b]| == g.perBuffer * g.stride
  }

  function Start(g: Geometry, slot: Slot): nat {
    slot.index * g.stride
  }

  lemma SlotInside(g: Geometry, buffers: Buffers, slot: Slot)
    requires GeometryOk(g) && BuffersOk(g, buffers) && SlotOk(g, buffers, slot)
    ensures Start(g, slot) + g.stride <= |buffers[slot.buffer]|
  {
    Arith.MulMono(slot.index + 1, g.perBuffer, g.stride);
  }

  /** Two slots never share a cell. */
  lemma SlotsApart(g: Geometry, a: Slot, b: Slot)
    requires a != b
    ensures a.buffer != b.buffer || Start(g, a) + g.stride <= Start(g, b) || Start(g, b) + g.stride <= Start(g, a)
  {
    if a.index < b.index {
      Arith.MulMono(a.index + 1, b.index, g.stride);
    } else if b.index < a.index {
      Arith.MulMono(b.index + 1, a.index, g.stride);
    }
  }

  function ValueAt(g: Geometry, buffers: Buffers, slot: Slot): (v: seq<int>)
    requires GeometryOk(g) && BuffersOk(g, buffers) && SlotOk(g, buffers, slot)
    ensures |v| == g.maxValue
  {
    SlotInside(g, buffers, slot);
    buffers[slot.buffer][Start(g, slot)..Start(g, slot) + g.maxValue]
  }

  function MetaAt(g: Geometry, buffers: Buffers, slot: Slot): int
    requires GeometryOk(g) && BuffersOk(g, buffers) && SlotOk(g, buffers, slot)
  {
    SlotInside(g, buffers, slot);
    if g.hasMeta then buffers[slot.buffer][Start(g, slot) + g.maxValue] else 0
  }

  /** Copies `cells` over the cells from `at` on. */
  function Splice(xs: seq<int>, at: nat, cells: seq<int>): (r: seq<int>)
    requires at + |cells| <= |xs|
    ensures |r| == |xs|
    ensures forall i :: 0 <= i < |xs| ==> r[i] == if at <= i < at + |cells| then cells[i - at] else xs[i]
  {
    xs[..at] + cells + xs[at + |cells|..]
  }

  /** `value` over the first cells of `was`. */
  function Overlay(was: seq<int>, value: seq<int>): (r: seq<int>)
    requires |value| <= |was|
    ensures |r| == |was|
  {
    value + was[|value|..]
  }

  function WriteValue(g: Geometry, buffers: Buffers, slot: Slot, value: seq<int>): (r: Buffers)
    requires GeometryOk(g) && BuffersOk(g, buffers) && SlotOk(g, buffers, slot) && |value| <= g.maxValue
    ensures |r| == |buffers| && BuffersOk(g, r)
  {
    SlotInside(g, buffers, slot);
    buffers[slot.buffer := Splice(buffers[slot.buffer], Start(g, slot), value)]
  }

  function WriteMeta(g: Geometry, buffers: Buffers, slot: Slot, meta: int): (r: Buffers)
    requires GeometryOk(g) && BuffersOk(g, buffers) && SlotOk(g, buffers, slot)
    ensures |r| == |buffers| && BuffersOk(g, r)
  {
    SlotInside(g, buffers, slot);
    if g.hasMeta then buffers[slot.buffer := Splice(buffers[slot.buffer], Start(g, slot) + g.maxValue, [meta])]
    else buffers
  }

  lemma WriteValueAt(g: Geometry, buffers: Buffers, slot: Slot, value: seq<int>, other: Slot)
    requires GeometryOk(g) && BuffersOk(g, buffers) && SlotOk(g, buffers, slot) && |value| <= g.maxValue
    requires SlotOk(g, buffers, other)
    ensures var r := WriteValue(g, buffers, slot, value);
            && ValueAt(g, r, other) == (if other == slot then Overlay(ValueAt(g, buffers, slot), value)
                                        else ValueAt(g, buffers, other))
            && MetaAt(g, r, other) == MetaAt(g, buffers, other)
  {
    SlotInside(g, buffers, slot);
    SlotInside(g, buffers, other);
    if other != slot {
      SlotsApart(g, slot, other);
    }
  }

  lemma WriteMetaAt(g: Geometry, buffers: Buffers, slot: Slot, meta: int, other: Slot)
    requires GeometryOk(g) && BuffersOk(g, buffers) && SlotOk(g, buffers, slot) && SlotOk(g, buffers, other)
    ensures var r := WriteMeta(g, buffers, slot, meta);
            && ValueAt(g, r, other) == ValueAt(g, buffers, other)
            && MetaAt(g, r, other) == if other == slot && g.hasMeta then meta else MetaAt(g, buffers, other)
  {
    SlotInside(g, buffers, slot);
    SlotInside(g, buffers, other);
    if other != slot {
      SlotsApart(g, slot, other);
    }
  }
}
