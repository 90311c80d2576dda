/** Gathering from a linear table: row `key` of the table for every key whose mask bit is clear, after which all keys
    count as hits. */
module LinearGather {

  import opened BitMask
  import PF = ParallelFor

  type Row = seq<real>

  /** The mask bit of key `i`, in words of 64 bits. */
  predicate KeyBit(mask: seq<nat>, i: nat)
    requires i < 64 * |mask|
  {
    Bit(mask[i / 64], i % 64)
  }

  ghost predicate GatherOk(keys: seq<int>, table: seq<Row>, mask: seq<nat>, values: seq<Row>) {
    && |keys| <= |values| && |keys| <= 64 * |mask|
    && forall i :: 0 <= i < |keys| ==> 0 <= keys[i] < |table|
  }

  ghost function GatherJob(keys: seq<int>, table: seq<Row>, mask: seq<nat>, values: seq<Row>, threads: nat): PF.Job
    requires GatherOk(keys, table, mask, values) && threads >= 1
  {
    PF.Job(|keys|, PF.KeysPerThread(|keys|, threads), threads,
           seq(|keys|, i requires 0 <= i < |keys| => !KeyBit(mask, i)),
           seq(|keys|, i requires 0 <= i < |keys| => table[keys[i]]), values)
  }

  /** For every number of keys and threads and every interleaving, each key whose bit was clear gets its row and no
      other place in the output changes. */
  lemma GatherIsExact(keys: seq<int>, table: seq<Row>, mask: seq<nat>, values: seq<Row>, threads: nat,
                      ss: seq<PF.State>, es: seq<nat>, i: nat)
    requires GatherOk(keys, table, mask, values) && threads >= 1 && i < |values|
    requires PF.IsRun(GatherJob(keys, table, mask, values, threads), ss, es)
    requires PF.AllDone(GatherJob(keys, table, mask, values, threads), ss[|es|])
    ensures |ss[|es|].out| == |values|
    ensures ss[|es|].out[i] == if i < |keys| && !KeyBit(mask, i) then table[keys[i]] else values[i]
  {
    PF.GatherCovers(|keys|, threads);
    PF.ParallelIsSequential(GatherJob(keys, table, mask, values, threads), ss, es);
  }

  lemma GatherLength(keys: seq<int>, table: seq<Row>, mask: seq<nat>, values: seq<Row>, threads: nat,
                     ss: seq<PF.State>, es: seq<nat>)
    requires GatherOk(keys, table, mask, values) && threads >= 1
    requires PF.IsRun(GatherJob(keys, table, mask, values, threads), ss, es)
    ensures |ss[|es|].out| == |values|
  {
    PF.GatherCovers(|keys|, threads);
    PF.RunInv(GatherJob(keys, table, mask, values, threads), ss, es, |es|);
  }

  /** Word `w` of a mask with the first `n` bits on. */
  function FullWord(n: nat, w: nat): nat {
    if n >= 64 * w + 64 then Pow2(64) - 1 else if n > 64 * w then Pow2(n - 64 * w) - 1 else 0
  }

  lemma FullWordBit(n: nat, w: nat, j: nat)
    requires j < 64
    ensures Bit(FullWord(n, w), j) <==> 64 * w + j < n
  {
    if n >= 64 * w + 64 {
      BitOnes(64, j);
    } else if n > 64 * w {
      BitOnes(n - 64 * w, j);
    } else {
      BitZero(j);
    }
  }

  /** Turns on the bits of the first `n` keys. A trailing partial word loses its other bits; words past the last key are
      left alone. */
  method MarkHits(mask: array<nat>, n: nat)
    requires n <= 64 * mask.Length
    modifies mask
    ensures forall w :: 0 <= w < mask.Length ==> mask[w] == if 64 * w < n then FullWord(n, w) else old(mask[w])
  {
    var full := n / 64;
    for w := 0 to full
      invariant forall v :: 0 <= v < mask.Length ==> mask[v] == if v < w then Pow2(64) - 1 else old(mask[v])
    {
      mask[w] := Pow2(64) - 1;
    }
    var rem := n - full * 64;
    if rem != 0 {
      mask[full] := Pow2(rem) - 1;
    }
  }

  /** After marking, bit `i` is on for every key. */
  lemma AllMarked(mask: seq<nat>, n: nat, i: nat)
    requires n <= 64 * |mask| && i < n
    requires forall w :: 0 <= w < |mask| && 64 * w < n ==> mask[w] == FullWord(n, w)
    ensures KeyBit(mask, i)
  {
    FullWordBit(n, i / 64, i % 64);
  }
}
