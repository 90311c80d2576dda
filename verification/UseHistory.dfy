/** The metadata of a partition as a history: the time of a key's last use under LRU, the number of its uses under
    LFU. */
module UseHistory {

  import opened SlotMemory
  import opened SlotTable

  /** What operation `op` in state `s` makes of the standing `was` of key `k`. A new key starts with the time or a
      count of one, a lookup sets the time or adds one, and under LFU the insert of a new key into a full partition
      halves the counts. */
  function NextStanding(c: Config, s: Part, op: Op, k: int, was: int): int {
    match op
    case InsertKey(l, _, now, _) =>
      if l in s.slotMap then was
      else if l == k then if c.policy.EvictLru? then now else 1
      else if c.policy.EvictLfu? && |s.slotMap| >= c.margin then was / 2
      else was
    case Touch(l, now) => if l != k || k !in s.slotMap then was else if c.policy.EvictLru? then now else was + 1
    case _ => was
  }

  function Standing(c: Config, ss: seq<Part>, ops: seq<Op>, n: nat, k: int): int
    requires n <= |ops| && n <= |ss|
  {
    if n == 0 then 0 else NextStanding(c, ss[n - 1], ops[n - 1], k, Standing(c, ss, ops, n - 1, k))
  }

  lemma PutMeta(c: Config, s: Part, l: int, value: seq<int>, k: int)
    requires Inv(c, s) && l in s.slotMap && |value| <= c.g.maxValue && k in s.slotMap
    ensures var s' := Put(c, s, l, value); Inv(c, s') && k in s'.slotMap && Meta(c, s', k) == Meta(c, s, k)
  {
    PutOk(c, s, l, value);
    assert k != l ==> SameEntry(c, s, Put(c, s, l, value), k);
  }

  lemma TouchMeta(c: Config, s: Part, l: int, meta: int, k: int)
    requires Inv(c, s) && c.g.hasMeta && l in s.slotMap && k in s.slotMap
    ensures var s' := Tag(c, s, l, meta);
            Inv(c, s') && k in s'.slotMap && Meta(c, s', k) == if k == l then meta else Meta(c, s, k)
  {
    TagOk(c, s, l, meta);
    assert k != l ==> SameEntry(c, s, Tag(c, s, l, meta), k);
  }

  lemma FreeMeta(c: Config, s: Part, l: int, k: int)
    requires Inv(c, s) && l in s.slotMap && k in s.slotMap && k != l
    ensures Inv(c, Free(s, l)) && k in Free(s, l).slotMap && Meta(c, Free(s, l), k) == Meta(c, s, k)
  {
    FreeOk(c, s, l);
    assert SameEntry(c, s, Free(s, l), k);
  }

  /** The standing of `k` in state `s` is its metadata, if it is there. */
  ghost predicate StandingOk(c: Config, s: Part, k: int, standing: int) {
    Inv(c, s) && (k in s.slotMap ==> Meta(c, s, k) == standing)
  }

  lemma StepStanding(c: Config, s: Part, op: Op, k: int, was: int)
    requires c.g.hasMeta && Enabled(c, s, op) && StandingOk(c, s, k, was)
    ensures StandingOk(c, Next(c, s, op), k, NextStanding(c, s, op, k, was))
  {
    StepInv(c, s, op);
    if k in Next(c, s, op).slotMap {
      match op
      case InsertKey(l, value, now, order) => InsertMeta(c, s, l, value, now, order, k);
      case UpdateKey(l, value) => if l in s.slotMap { PutMeta(c, s, l, value, k); }
      case EraseKey(l) => if l in s.slotMap { FreeMeta(c, s, l, k); }
      case Touch(l, now) =>
        if l in s.slotMap { TouchMeta(c, s, l, if c.policy.EvictLru? then now else Meta(c, s, l) + 1, k); }
      case _ =>
    }
  }

  /** In every reachable state the metadata of a key is its standing. */
  lemma {:induction false} RunStanding(c: Config, ss: seq<Part>, ops: seq<Op>, n: nat, k: int)
    requires ConfigOk(c) && c.g.hasMeta && IsRun(c, ss, ops) && ss[0] == EMPTY && n <= |ops|
    ensures StandingOk(c, ss[n], k, Standing(c, ss, ops, n, k))
  {
    if n == 0 {
      EmptyInv(c);
    } else {
      RunStanding(c, ss, ops, n - 1, k);
      assert IsStep(c, ss[n - 1], ops[n - 1], ss[n]);
      StepStanding(c, ss[n - 1], ops[n - 1], k, Standing(c, ss, ops, n - 1, k));
    }
  }

  lemma RoomKeys(c: Config, s: Part, order: seq<int>, k: int)
    requires Inv(c, s) && OrderFor(c, s, order) && |s.slotMap| >= c.margin
    ensures |order| == |s.slotMap| && (k in MakeRoom(c, s, order).slotMap <==> k in Evict(c, s, order).slotMap)
  {
    OrderSize(s, order);
  }

  /** An eviction takes the keys that were used least recently or least often: no key that it removes has a larger
      standing than one that stays. */
  lemma EvictsLeastUsed(c: Config, ss: seq<Part>, ops: seq<Op>, n: nat, k: int, l: int)
    requires ConfigOk(c) && c.g.hasMeta && IsRun(c, ss, ops) && ss[0] == EMPTY && n < |ops| && ops[n].InsertKey?
    requires k in ss[n].slotMap && k !in ss[n + 1].slotMap && l in ss[n].slotMap && l in ss[n + 1].slotMap
    ensures Standing(c, ss, ops, n, k) <= Standing(c, ss, ops, n, l)
  {
    var s, op := ss[n], ops[n];
    RunInv(c, ss, ops, n);
    RunStanding(c, ss, ops, n, k);
    RunStanding(c, ss, ops, n, l);
    assert IsStep(c, s, op, ss[n + 1]);
    InsertOk(c, s, op.key, op.value, op.now, op.order);
    MakeRoomOk(c, s, op.order);
    StoreOk(c, MakeRoom(c, s, op.order), op.key, op.value, op.now);
    RoomKeys(c, s, op.order, k);
    RoomKeys(c, s, op.order, l);
    EvictsSmallest(c, s, op.order, k, l);
  }
}
