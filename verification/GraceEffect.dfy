/** What a modify of the grace-period protocol does: which tags and rows it leaves, from the state in which it begins to
    the next one, and that it can always be brought to its end. */
module GraceEffect {

  import opened GracePeriod

  /** Modify number `j` begins at event `j`, and up to event `n` no other one has begun. */
  ghost predicate LastBegin(es: seq<Event>, j: nat, n: nat) {
    && j < n <= |es| && es[j].OfModify? && es[j].write.Begin?
    && forall i :: j < i < n ==> !IsBegin(es[i])
  }

  predicate IsBegin(e: Event) {
    e.OfModify? && e.write.Begin?
  }

  predicate SameAt<T(==)>(m: map<Slot, T>, m': map<Slot, T>, x: Slot) {
    (x in m <==> x in m') && (x in m ==> m[x] == m'[x])
  }

  // ---------------------------------------------------------------------------------------------
  // Slot by slot, what has been done since the modify began in state `s0`.

  /** The tag of a slot of the modify list. */
  ghost predicate TagAt(s0: State, op: Op, entries: map<Slot, Entry>, s: State, x: Slot)
    requires x in entries
  {
    match s.phase
    case Idle => if op == Invalidation then x !in s.tags else x in s.tags && s.tags[x] == entries[x].key
    case Invalidating(cleared) => if x in cleared then x !in s.tags else SameAt(s0.tags, s.tags, x)
    case Publishing(published) => if x in published then x in s.tags && s.tags[x] == entries[x].key else x !in s.tags
    case _ => x !in s.tags
  }

  /** Its row. */
  ghost predicate RowAt(s0: State, op: Op, entries: map<Slot, Entry>, s: State, x: Slot)
    requires x in entries
  {
    match s.phase
    case Idle => if op == Invalidation then SameAt(s0.rows, s.rows, x) else x in s.rows && s.rows[x] == entries[x].row
    case Publishing(_) => x in s.rows && s.rows[x] == entries[x].row
    case Writing(_) => true
    case _ => SameAt(s0.rows, s.rows, x)
  }

  ghost predicate SlotAt(s0: State, op: Op, entries: map<Slot, Entry>, s: State, x: Slot) {
    if x in entries then TagAt(s0, op, entries, s, x) && RowAt(s0, op, entries, s, x)
    else SameAt(s0.tags, s.tags, x) && SameAt(s0.rows, s.rows, x)
  }

  ghost predicate ModifyIs(op: Op, entries: map<Slot, Entry>, s: State) {
    && s.op == op && s.entries == entries
    && (op == Invalidation ==> !s.phase.Writing? && !s.phase.Publishing?)
  }

  lemma StepIs(op: Op, entries: map<Slot, Entry>, s: State, e: Event)
    requires Enabled(s, e) && !IsBegin(e) && ModifyIs(op, entries, s)
    ensures ModifyIs(op, entries, Apply(s, e))
  {
  }

  /** When all words have been written, the row of the slot is the one of the list. */
  ghost predicate WrittenAt(s: State, x: Slot) {
    x in s.entries ==> x in s.rows && s.rows[x] == s.entries[x].row
  }

  lemma RowsAreWritten(s: State, x: Slot)
    requires Inv(s) && ModifyEnabled(s, RowsDone)
    ensures WrittenAt(s, x)
  {
    if x in s.entries {
      assert forall j :: 0 <= j < s.width ==> (x, j) in s.phase.written;
    }
  }

  lemma StepSlot(s0: State, op: Op, entries: map<Slot, Entry>, s: State, e: ModifyStep, x: Slot)
    requires ModifyEnabled(s, e) && !e.Begin? && ModifyIs(op, entries, s) && SlotAt(s0, op, entries, s, x)
    requires e == RowsDone ==> WrittenAt(s, x)
    ensures SlotAt(s0, op, entries, NextModify(s, e), x)
  {
  }

  /** Step `i` of a run. */
  lemma Taken(ss: seq<State>, es: seq<Event>, i: nat)
    requires IsRun(ss, es) && i < |es|
    ensures Enabled(ss[i], es[i]) && ss[i + 1] == Apply(ss[i], es[i])
  {
  }

  lemma TakenWritten(ss: seq<State>, es: seq<Event>, i: nat, x: Slot)
    requires IsRun(ss, es) && i < |es| && es[i] == OfModify(RowsDone)
    ensures WrittenAt(ss[i], x)
  {
    RunInv(ss, es, i);
    Taken(ss, es, i);
    RowsAreWritten(ss[i], x);
  }

  lemma EventSlot(s0: State, op: Op, entries: map<Slot, Entry>, s: State, e: Event, s': State, x: Slot)
    requires Enabled(s, e) && s' == Apply(s, e) && !IsBegin(e) && (e == OfModify(RowsDone) ==> WrittenAt(s, x))
    requires ModifyIs(op, entries, s) && SlotAt(s0, op, entries, s, x)
    ensures ModifyIs(op, entries, s') && SlotAt(s0, op, entries, s', x)
  {
    StepIs(op, entries, s, e);
    if e.OfModify? {
      StepSlot(s0, op, entries, s, e.write, x);
    }
  }

  lemma BeginSlot(s: State, op: Op, entries: map<Slot, Entry>, x: Slot)
    requires ModifyEnabled(s, Begin(op, entries))
    ensures var s' := NextModify(s, Begin(op, entries)); ModifyIs(op, entries, s') && SlotAt(s, op, entries, s', x)
  {
  }

  lemma {:induction false} RunSlot(ss: seq<State>, es: seq<Event>, j: nat, n: nat, x: Slot)
    requires IsRun(ss, es) && LastBegin(es, j, n)
    ensures ModifyIs(es[j].write.op, es[j].write.entries, ss[n])
    ensures SlotAt(ss[j], es[j].write.op, es[j].write.entries, ss[n], x)
  {
    var op, entries, i := es[j].write.op, es[j].write.entries, n - 1;
    Taken(ss, es, i);
    if i == j {
      BeginSlot(ss[j], op, entries, x);
    } else {
      RunSlot(ss, es, j, i, x);
      if es[i] == OfModify(RowsDone) {
        TakenWritten(ss, es, i, x);
      }
      EventSlot(ss[j], op, entries, ss[i], es[i], ss[n], x);
    }
  }

  // ---------------------------------------------------------------------------------------------
  // The effect.

  /** A modify has ended: at event `n` it finished or, if it only invalidates, its grace period did. */
  ghost predicate EndsAt(es: seq<Event>, j: nat, n: nat) {
    && n < |es| && LastBegin(es, j, n)
    && es[n] == OfModify(if es[j].write.op == Invalidation then GraceOver else Finish)
  }

  /** After a replacement every slot of its list holds the key and the row that it was given, and every other slot what
      it held before. */
  lemma ReplaceTakesEffect(ss: seq<State>, es: seq<Event>, j: nat, n: nat, x: Slot)
    requires IsRun(ss, es) && EndsAt(es, j, n) && es[j].write.op == Replace
    ensures var entries, s0, s := es[j].write.entries, ss[j], ss[n + 1];
            if x in entries
            then x in s.tags && s.tags[x] == entries[x].key && x in s.rows && s.rows[x] == entries[x].row
            else SameAt(s0.tags, s.tags, x) && SameAt(s0.rows, s.rows, x)
  {
    RunSlot(ss, es, j, n + 1, x);
    EndIsIdle(ss, es, j, n);
  }

  /** After an invalidation no slot of its list holds a key, every other tag is as before, and no row has changed. */
  lemma InvalidationTakesEffect(ss: seq<State>, es: seq<Event>, j: nat, n: nat, x: Slot)
    requires IsRun(ss, es) && EndsAt(es, j, n) && es[j].write.op == Invalidation
    ensures var entries, s0, s := es[j].write.entries, ss[j], ss[n + 1];
            && (if x in entries then x !in s.tags else SameAt(s0.tags, s.tags, x))
            && SameAt(s0.rows, s.rows, x)
  {
    RunSlot(ss, es, j, n + 1, x);
    EndIsIdle(ss, es, j, n);
  }

  /** A lookup launched after a replacement can match the slot of its key, and then holds the new row. */
  lemma NewRowIsFound(ss: seq<State>, es: seq<Event>, j: nat, n: nat, x: Slot, id: nat)
    requires IsRun(ss, es) && EndsAt(es, j, n) && es[j].write.op == Replace && x in es[j].write.entries
    requires n + 1 < |es| && es[n + 1] == OfLookup(id, Launch(es[j].write.entries[x].key))
    ensures LookupEnabled(ss[n + 2], id, MatchTag(x))
    ensures NextLookup(ss[n + 2], id, MatchTag(x)).probe == Hit(x, es[j].write.entries[x].row)
  {
    ReplaceTakesEffect(ss, es, j, n, x);
    assert ss[n + 2] == Apply(ss[n + 1], es[n + 1]);
  }

  /** Until the next modify begins, a slot that an invalidation cleared is never matched. */
  lemma NoneIsFound(ss: seq<State>, es: seq<Event>, j: nat, n: nat, m: nat, x: Slot, id: nat)
    requires IsRun(ss, es) && EndsAt(es, j, n) && es[j].write.op == Invalidation && x in es[j].write.entries
    requires n < m && LastBegin(es, j, m)
    ensures !LookupEnabled(ss[m], id, MatchTag(x))
  {
    RunSlot(ss, es, j, m, x);
    RunIdle(ss, es, j, n, m);
  }

  lemma StaysIdle(s: State, e: Event)
    requires Enabled(s, e) && !IsBegin(e) && s.phase.Idle?
    ensures Apply(s, e).phase.Idle?
  {
  }

  lemma EndIsIdle(ss: seq<State>, es: seq<Event>, j: nat, n: nat)
    requires IsRun(ss, es) && EndsAt(es, j, n)
    ensures ss[n + 1].phase.Idle?
  {
    RunSlot(ss, es, j, n, 0);
    Taken(ss, es, n);
  }

  lemma {:induction false} RunIdle(ss: seq<State>, es: seq<Event>, j: nat, n: nat, m: nat)
    requires IsRun(ss, es) && EndsAt(es, j, n) && n < m && LastBegin(es, j, m)
    ensures ss[m].phase.Idle?
  {
    if m == n + 1 {
      EndIsIdle(ss, es, j, n);
    } else {
      RunIdle(ss, es, j, n, m - 1);
      Taken(ss, es, m - 1);
      StaysIdle(ss[m - 1], es[m - 1]);
    }
  }

  // ---------------------------------------------------------------------------------------------
  // Lookups keep their keys.

  /** Lookup `id` was started for `key` before event `n`. */
  ghost predicate StartedFor(es: seq<Event>, n: nat, id: nat, key: Key) {
    exists i :: 0 <= i < n <= |es| && (es[i] == OfLookup(id, Launch(key)) || es[i] == OfLookup(id, FlowStart(key)))
  }

  lemma {:induction false} KeyOfLookup(ss: seq<State>, es: seq<Event>, n: nat, id: nat)
    requires IsRun(ss, es) && n < |ss| && id in ss[n].lookups
    ensures StartedFor(es, n, id, ss[n].lookups[id].key)
  {
    assert n > 0;
    var s, e := ss[n - 1], es[n - 1];
    assert Enabled(s, e) && ss[n] == Apply(s, e);
    if id in s.lookups {
      KeyOfLookup(ss, es, n - 1, id);
    }
  }

  /** A finished hit has copied the whole of a row that was published, at the start of the run or by a modify, for the
      key that the lookup was started with. */
  lemma HitIsForKey(ss: seq<State>, es: seq<Event>, n: nat, id: nat) returns (key: Key)
    requires IsRun(ss, es) && n < |ss|
    requires id in ss[n].lookups && ss[n].lookups[id].probe.Hit? && |ss[n].lookups[id].copied| == ss[n].width
    ensures StartedFor(es, n, id, key)
    ensures Provenance(ss, es, n, ss[n].lookups[id].probe.slot, Entry(key, ss[n].lookups[id].copied))
  {
    key := ss[n].lookups[id].key;
    KeyOfLookup(ss, es, n, id);
    HitIsOldOrNew(ss, es, n, id);
  }
}
