/** The grace-period protocol by which a modify operation replaces rows of the device cache while
    lookups are in flight.

    A lookup is a device kernel that matches a tag and then copies the row of the matching slot, one
    word at a time. A custom flow does the same with two kernels, one for the tags and one for the
    rows, launched while the flow holds the reader side of the custom-flow lock. A modify
    invalidates the tags of its slots, synchronises, takes the writer side of the lock, records the
    kernels launched so far, and lets the device write the rows and publish the tags only after the
    recorded kernels have finished. The host returns, and so gives the lock back, as soon as the
    device work is queued.

    Every interleaving is a sequence of events; one modify runs at a time. */
module GracePeriod {

  type Slot = nat
  type Key = int
  type Row = seq<int>

  /** What a lookup knows after its tag kernel: `row` is a history variable, the contents of the
      slot at the instant the tag matched. */
  datatype Probe = Unread | Missed | Hit(slot: Slot, row: Row)

  datatype Lookup = Lookup(
    key: Key,
    locked: bool,        // holds the reader lock (custom flows only)
    tagLaunched: bool,
    rowLaunched: bool,
    probe: Probe,
    copied: Row)         // the words copied to the output so far

  datatype Kernel = TagKernel(id: nat) | RowKernel(id: nat)

  datatype Op = Replace | Invalidation

  datatype Entry = Entry(key: Key, row: Row)

  datatype Phase =
    | Idle
    | Invalidating(cleared: set<Slot>)
    | Synced
    | Locked
    | Recorded(pending: set<Kernel>)
    | Writing(written: set<(Slot, nat)>)
    | Publishing(published: set<Slot>)

  /** A slot that is absent from `tags` holds the sentinel. `committed` is a history variable: the
      key and row most recently published in each slot. */
  datatype State = State(
    width: nat,
    tags: map<Slot, Key>,
    rows: map<Slot, Row>,
    lookups: map<nat, Lookup>,
    phase: Phase,
    op: Op,
    entries: map<Slot, Entry>,
    writerHeld: bool,
    committed: map<Slot, Entry>)

  /** Host calls and device steps of one lookup: `Launch` starts a lookup done by one kernel, the four
      `Flow` steps are the host side of a custom flow. */
  datatype LookupStep =
    | Launch(key: Key)
    | FlowStart(key: Key)
    | FlowLaunchTags
    | FlowLaunchRows
    | FlowEnd
    | MatchTag(slot: Slot)
    | MissTag
    | CopyWord

  /** The steps of a modify, in order; the lock is given back at any time after `Record`. */
  datatype ModifyStep =
    | Begin(op: Op, entries: map<Slot, Entry>)
    | ClearTag(slot: Slot)
    | SyncStream
    | TakeLock
    | Record
    | GraceOver
    | WriteWord(slot: Slot, j: nat)
    | RowsDone
    | PublishTag(slot: Slot)
    | Finish
    | ReleaseLock

  datatype Event = OfLookup(id: nat, read: LookupStep) | OfModify(write: ModifyStep)

  ghost predicate KernelDone(s: State, k: Kernel) {
    k.id in s.lookups &&
    var l := s.lookups[k.id];
    match k
    case TagKernel(_) => !l.probe.Unread?
    case RowKernel(_) => l.probe.Missed? || (l.probe.Hit? && |l.copied| == s.width)
  }

  ghost predicate Launched(s: State, k: Kernel) {
    k.id in s.lookups &&
    match k
    case TagKernel(id) => s.lookups[id].tagLaunched
    case RowKernel(id) => s.lookups[id].rowLaunched
  }

  /** The kernels a marker placed now would cover. */
  ghost function LaunchedKernels(s: State): set<Kernel> {
    (set id | id in s.lookups && s.lookups[id].tagLaunched :: TagKernel(id)) +
    (set id | id in s.lookups && s.lookups[id].rowLaunched :: RowKernel(id))
  }

  ghost predicate LookupEnabled(s: State, id: nat, e: LookupStep) {
    match e
    case Launch(_) => id !in s.lookups
    case FlowStart(_) => id !in s.lookups && !s.writerHeld
    case FlowLaunchTags => id in s.lookups && s.lookups[id].locked && !s.lookups[id].tagLaunched
    case FlowLaunchRows =>
      id in s.lookups && s.lookups[id].locked && s.lookups[id].tagLaunched && !s.lookups[id].rowLaunched
    case FlowEnd => id in s.lookups && s.lookups[id].locked
    case MatchTag(slot) =>
      id in s.lookups && s.lookups[id].tagLaunched && s.lookups[id].probe.Unread? &&
      slot in s.tags && s.tags[slot] == s.lookups[id].key && slot in s.rows
    case MissTag => id in s.lookups && s.lookups[id].tagLaunched && s.lookups[id].probe.Unread?
    case CopyWord =>
      id in s.lookups && s.lookups[id].rowLaunched && s.lookups[id].probe.Hit? &&
      |s.lookups[id].copied| < s.width &&
      s.lookups[id].probe.slot in s.rows &&
      |s.lookups[id].copied| < |s.rows[s.lookups[id].probe.slot]|
  }

  ghost function NextLookup(s: State, id: nat, e: LookupStep): Lookup
    requires LookupEnabled(s, id, e)
  {
    match e
    case Launch(key) => Lookup(key, false, true, true, Unread, [])
    case FlowStart(key) => Lookup(key, true, false, false, Unread, [])
    case FlowLaunchTags => s.lookups[id].(tagLaunched := true)
    case FlowLaunchRows => s.lookups[id].(rowLaunched := true)
    case FlowEnd => s.lookups[id].(locked := false)
    case MatchTag(slot) => s.lookups[id].(probe := Hit(slot, s.rows[slot]))
    case MissTag => s.lookups[id].(probe := Missed)
    case CopyWord =>
      var l := s.lookups[id];
      l.(copied := l.copied + [s.rows[l.probe.slot][|l.copied|]])
  }

  ghost predicate ModifyEnabled(s: State, e: ModifyStep) {
    match e
    case Begin(_, entries) =>
      s.phase.Idle? && !s.writerHeld && entries.Keys <= s.rows.Keys &&
      forall x :: x in entries ==> |entries[x].row| == s.width
    case ClearTag(slot) => s.phase.Invalidating? && slot in s.entries
    case SyncStream => s.phase.Invalidating? && s.entries.Keys <= s.phase.cleared
    case TakeLock =>
      s.phase.Synced? && forall id :: id in s.lookups ==> !s.lookups[id].locked
    case Record => s.phase.Locked?
    case GraceOver => s.phase.Recorded? && forall k :: k in s.phase.pending ==> KernelDone(s, k)
    case WriteWord(slot, j) =>
      s.phase.Writing? && slot in s.entries && slot in s.rows && j < |s.rows[slot]| && j < |s.entries[slot].row|
    case RowsDone =>
      s.phase.Writing? &&
      forall x, j :: x in s.entries && 0 <= j < s.width ==> (x, j) in s.phase.written
    case PublishTag(slot) => s.phase.Publishing? && slot in s.entries
    case Finish => s.phase.Publishing? && s.entries.Keys <= s.phase.published
    case ReleaseLock =>
      s.writerHeld && (s.phase.Recorded? || s.phase.Writing? || s.phase.Publishing? || s.phase.Idle?)
  }

  ghost function NextModify(s: State, e: ModifyStep): (s': State)
    requires ModifyEnabled(s, e)
    ensures s'.lookups == s.lookups && s'.width == s.width
    ensures e.Begin? || s'.entries == s.entries
    ensures e.PublishTag? || s'.committed == s.committed
    ensures s.phase.Idle? && !e.Begin? ==> s'.phase.Idle?
  {
    match e
    case Begin(op, entries) => s.(phase := Invalidating({}), op := op, entries := entries)
    case ClearTag(slot) =>
      s.(tags := s.tags - {slot}, phase := Invalidating(s.phase.cleared + {slot}))
    case SyncStream => s.(phase := Synced)
    case TakeLock => s.(phase := Locked, writerHeld := true)
    case Record => s.(phase := Recorded(LaunchedKernels(s)))
    case GraceOver =>
      if s.op.Invalidation? then s.(phase := Idle) else s.(phase := Writing({}))
    case WriteWord(slot, j) =>
      s.(rows := s.rows[slot := s.rows[slot][j := s.entries[slot].row[j]]],
         phase := Writing(s.phase.written + {(slot, j)}))
    case RowsDone => s.(phase := Publishing({}))
    case PublishTag(slot) =>
      s.(tags := s.tags[slot := s.entries[slot].key],
         committed := s.committed[slot := s.entries[slot]],
         phase := Publishing(s.phase.published + {slot}))
    case Finish => s.(phase := Idle)
    case ReleaseLock => s.(writerHeld := false)
  }

  ghost predicate Enabled(s: State, e: Event) {
    match e
    case OfLookup(id, step) => LookupEnabled(s, id, step)
    case OfModify(step) => ModifyEnabled(s, step)
  }

  ghost function Apply(s: State, e: Event): State
    requires Enabled(s, e)
  {
    match e
    case OfLookup(id, step) => s.(lookups := s.lookups[id := NextLookup(s, id, step)])
    case OfModify(step) => NextModify(s, step)
  }

  /** A quiet cache: every row has the row width and every valid tag covers a committed row. */
  ghost predicate Initial(s: State) {
    && s.lookups == map[]
    && s.phase.Idle?
    && !s.writerHeld
    && Shaped(s)
    && forall x :: x in s.tags ==> Committed(s, x)
  }

  ghost predicate Shaped(s: State) {
    && s.tags.Keys <= s.rows.Keys
    && (forall x :: x in s.rows ==> |s.rows[x]| == s.width)
  }

  ghost predicate Committed(s: State, x: Slot) {
    x in s.tags && x in s.rows && x in s.committed &&
    s.committed[x] == Entry(s.tags[x], s.rows[x])
  }

  /** `ss` lists the states of a run in which the events `es` happen in order. */
  ghost predicate IsRun(ss: seq<State>, es: seq<Event>) {
    && |ss| == |es| + 1
    && Initial(ss[0])
    && forall i :: 0 <= i < |es| ==> Enabled(ss[i], es[i]) && ss[i + 1] == Apply(ss[i], es[i])
  }

  // ---------------------------------------------------------------------------------------------
  // The invariant.

  /** A lookup that matched a tag and may still copy words of the slot's row. */
  ghost predicate Reading(s: State, id: nat) {
    id in s.lookups &&
    var l := s.lookups[id];
    l.probe.Hit? && |l.copied| < s.width && (l.rowLaunched || l.locked)
  }

  ghost predicate LookupOk(s: State, id: nat)
    requires id in s.lookups
  {
    var l := s.lookups[id];
    && (l.rowLaunched ==> l.tagLaunched)
    && (!l.probe.Unread? ==> l.tagLaunched)
    && (!l.probe.Hit? ==> l.copied == [])
    && (l.probe.Hit? ==> l.probe.slot in s.rows && |l.probe.row| == s.width && l.copied <= l.probe.row)
    && (Reading(s, id) ==> s.rows[l.probe.slot] == l.probe.row)
  }

  ghost predicate LookupsOk(s: State) {
    && (forall id :: id in s.lookups ==> LookupOk(s, id))
    && (s.writerHeld ==> forall id :: id in s.lookups ==> !s.lookups[id].locked)
  }

  /** The slots whose device tag the modify has taken away and not yet published again. */
  ghost function Hidden(s: State): set<Slot> {
    match s.phase
    case Idle => {}
    case Invalidating(cleared) => cleared
    case Publishing(published) => s.entries.Keys - published
    case _ => s.entries.Keys
  }

  ghost predicate ModifyOk(s: State)
    requires Shaped(s)
  {
    && (!s.phase.Idle? ==> s.entries.Keys <= s.rows.Keys &&
                           forall x :: x in s.entries ==> |s.entries[x].row| == s.width)
    && (s.phase.Invalidating? ==> s.phase.cleared <= s.entries.Keys)
    && Hidden(s) !! s.tags.Keys
    && (s.phase.Locked? ==> s.writerHeld)
    && (s.phase.Recorded? ==> forall k :: k in s.phase.pending ==> Launched(s, k))
    && (s.phase.Recorded? ==>
          forall id :: Reading(s, id) && s.lookups[id].probe.slot in s.entries ==> RowKernel(id) in s.phase.pending)
    && (s.phase.Writing? || s.phase.Publishing? ==>
          forall id :: Reading(s, id) ==> s.lookups[id].probe.slot !in Hidden(s))
    && (s.phase.Writing? ==>
          forall x, j :: x in s.entries && 0 <= j < s.width && (x, j) in s.phase.written ==>
            s.rows[x][j] == s.entries[x].row[j])
    && (s.phase.Publishing? ==> forall x :: x in s.entries ==> s.rows[x] == s.entries[x].row)
  }

  ghost predicate Inv(s: State) {
    && Shaped(s)
    && (forall x :: x in s.tags ==> Committed(s, x))
    && LookupsOk(s)
    && ModifyOk(s)
  }

  lemma InitialInv(s: State)
    requires Initial(s)
    ensures Inv(s)
  {
  }

  /** Changing one lookup keeps the invariant when the lookup stays consistent, takes the lock only
      while the writer does not hold it, and does not start reading a hidden slot. */
  lemma ChangeLookup(s: State, id: nat, l: Lookup)
    requires Inv(s)
    requires id in s.lookups ==>
               (s.lookups[id].tagLaunched ==> l.tagLaunched) && (s.lookups[id].rowLaunched ==> l.rowLaunched)
    requires var s' := s.(lookups := s.lookups[id := l]);
             && LookupOk(s', id)
             && (s.writerHeld ==> !l.locked)
             && (Reading(s', id) ==> (Reading(s, id) && s.lookups[id].probe == l.probe) || l.probe.slot !in Hidden(s))
    ensures Inv(s.(lookups := s.lookups[id := l]))
  {
    var s' := s.(lookups := s.lookups[id := l]);
    assert forall x :: x != id ==> Reading(s', x) == Reading(s, x);
    forall x | x in s'.lookups ensures LookupOk(s', x) {
      if x != id { assert LookupOk(s, x); }
    }
    forall x | x in s'.tags ensures Committed(s', x) { assert Committed(s, x); }
    if s.phase.Recorded? {
      forall k | k in s.phase.pending ensures Launched(s', k) { assert Launched(s, k); }
    }
    assert Hidden(s') == Hidden(s);
    assert ModifyOk(s');
  }

  lemma StepLookup(s: State, id: nat, e: LookupStep)
    requires Inv(s) && LookupEnabled(s, id, e)
    ensures Inv(s.(lookups := s.lookups[id := NextLookup(s, id, e)]))
  {
    if id in s.lookups { assert LookupOk(s, id); }
    if e.CopyWord? { assert Reading(s, id); }
    ChangeLookup(s, id, NextLookup(s, id, e));
  }

  /** A step that touches neither tags, rows nor lookups only has to look after the modify. */
  lemma SameData(s: State, s': State)
    requires Inv(s)
    requires s'.lookups == s.lookups && s'.rows == s.rows && s'.width == s.width
    requires s'.tags == s.tags && s'.committed == s.committed
    requires s'.writerHeld ==> forall id :: id in s.lookups ==> !s.lookups[id].locked
    requires Shaped(s') ==> ModifyOk(s')
    ensures Inv(s')
  {
    SameLookups(s, s');
    forall x | x in s'.tags ensures Committed(s', x) { assert Committed(s, x); }
  }

  lemma SameLookups(s: State, s': State)
    requires LookupsOk(s) && s'.lookups == s.lookups && s'.rows == s.rows && s'.width == s.width
    requires s'.writerHeld ==> forall id :: id in s.lookups ==> !s.lookups[id].locked
    ensures LookupsOk(s')
    ensures forall id :: Reading(s', id) == Reading(s, id)
  {
    assert forall id :: Reading(s', id) == Reading(s, id);
    forall id | id in s'.lookups ensures LookupOk(s', id) { assert LookupOk(s, id); }
  }

  lemma StepBegin(s: State, op: Op, entries: map<Slot, Entry>)
    requires Inv(s) && ModifyEnabled(s, Begin(op, entries))
    ensures Inv(NextModify(s, Begin(op, entries)))
  {
    SameData(s, s.(phase := Invalidating({}), op := op, entries := entries));
  }

  lemma StepClear(s: State, slot: Slot)
    requires Inv(s) && ModifyEnabled(s, ClearTag(slot))
    ensures Inv(NextModify(s, ClearTag(slot)))
  {
    var s' := s.(tags := s.tags - {slot}, phase := Invalidating(s.phase.cleared + {slot}));
    SameLookups(s, s');
    forall x | x in s'.tags ensures Committed(s', x) { assert Committed(s, x); }
  }

  lemma StepSync(s: State)
    requires Inv(s) && ModifyEnabled(s, SyncStream)
    ensures Inv(NextModify(s, SyncStream))
  {
    SameData(s, s.(phase := Synced));
  }

  lemma StepLock(s: State)
    requires Inv(s) && ModifyEnabled(s, TakeLock)
    ensures Inv(NextModify(s, TakeLock))
  {
    SameData(s, s.(phase := Locked, writerHeld := true));
  }

  /** No flow holds the reader lock when the marker is placed, so every lookup that matched a tag has
      already launched the kernel that copies its row. */
  lemma StepRecord(s: State)
    requires Inv(s) && ModifyEnabled(s, Record)
    ensures Inv(NextModify(s, Record))
  {
    var s' := s.(phase := Recorded(LaunchedKernels(s)));
    SameLookups(s, s');
    forall id | Reading(s', id) ensures RowKernel(id) in s'.phase.pending {
      assert id in s.lookups && !s.lookups[id].locked;
    }
    assert forall k :: k in LaunchedKernels(s) ==> Launched(s', k);
    SameData(s, s');
  }

  lemma GraceClears(s: State, id: nat)
    requires Inv(s) && ModifyEnabled(s, GraceOver) && Reading(s, id)
    ensures s.lookups[id].probe.slot !in s.entries
  {
    assert !KernelDone(s, RowKernel(id));
  }

  lemma StepGraceOver(s: State)
    requires Inv(s) && ModifyEnabled(s, GraceOver)
    ensures Inv(NextModify(s, GraceOver))
  {
    if s.op.Invalidation? {
      SameData(s, s.(phase := Idle));
    } else {
      var s' := s.(phase := Writing({}));
      SameLookups(s, s');
      forall id | Reading(s', id) ensures s.lookups[id].probe.slot !in s.entries { GraceClears(s, id); }
      SameData(s, s');
    }
  }

  lemma StepRowsDone(s: State)
    requires Inv(s) && ModifyEnabled(s, RowsDone)
    ensures Inv(NextModify(s, RowsDone))
  {
    var s' := s.(phase := Publishing({}));
    SameLookups(s, s');
    forall x | x in s.entries ensures s.rows[x] == s.entries[x].row {
      assert forall j :: 0 <= j < s.width ==> (x, j) in s.phase.written;
    }
    SameData(s, s');
  }

  lemma StepFinish(s: State)
    requires Inv(s) && ModifyEnabled(s, Finish)
    ensures Inv(NextModify(s, Finish))
  {
    SameData(s, s.(phase := Idle));
  }

  lemma StepRelease(s: State)
    requires Inv(s) && ModifyEnabled(s, ReleaseLock)
    ensures Inv(NextModify(s, ReleaseLock))
  {
    var s' := s.(writerHeld := false);
    SameLookups(s, s');
    if s.phase.Recorded? {
      forall k | k in s.phase.pending ensures Launched(s', k) { assert Launched(s, k); }
    }
    assert Hidden(s') == Hidden(s);
    SameData(s, s');
  }

  lemma StepWrite(s: State, slot: Slot, j: nat)
    requires Inv(s) && ModifyEnabled(s, WriteWord(slot, j))
    ensures Inv(NextModify(s, WriteWord(slot, j)))
  {
    var s' := NextModify(s, WriteWord(slot, j));
    assert forall id :: Reading(s', id) == Reading(s, id);
    forall id | id in s'.lookups ensures LookupOk(s', id) { assert LookupOk(s, id); }
    forall x | x in s'.tags ensures Committed(s', x) { assert Committed(s, x); }
  }

  lemma StepPublish(s: State, slot: Slot)
    requires Inv(s) && ModifyEnabled(s, PublishTag(slot))
    ensures Inv(NextModify(s, PublishTag(slot)))
  {
    var s' := NextModify(s, PublishTag(slot));
    SameLookups(s, s');
    forall x | x in s'.tags ensures Committed(s', x) {
      if x != slot { assert Committed(s, x); }
    }
  }

  lemma StepModify(s: State, e: ModifyStep)
    requires Inv(s) && ModifyEnabled(s, e)
    ensures Inv(NextModify(s, e))
  {
    match e
    case Begin(op, entries) => StepBegin(s, op, entries);
    case ClearTag(slot) => StepClear(s, slot);
    case SyncStream => StepSync(s);
    case TakeLock => StepLock(s);
    case Record => StepRecord(s);
    case GraceOver => StepGraceOver(s);
    case WriteWord(slot, j) => StepWrite(s, slot, j);
    case RowsDone => StepRowsDone(s);
    case PublishTag(slot) => StepPublish(s, slot);
    case Finish => StepFinish(s);
    case ReleaseLock => StepRelease(s);
  }

  /** Every step of a lookup, a custom flow or the modify keeps the invariant. */
  lemma StepInv(s: State, e: Event)
    requires Inv(s) && Enabled(s, e)
    ensures Inv(Apply(s, e))
  {
    match e
    case OfLookup(id, step) => StepLookup(s, id, step);
    case OfModify(step) => StepModify(s, step);
  }

  // ---------------------------------------------------------------------------------------------
  // What every run keeps.

  lemma {:induction false} RunInv(ss: seq<State>, es: seq<Event>, n: nat)
    requires IsRun(ss, es) && n < |ss|
    ensures Inv(ss[n])
  {
    if n == 0 {
      InitialInv(ss[0]);
    } else {
      RunInv(ss, es, n - 1);
      StepInv(ss[n - 1], es[n - 1]);
    }
  }

  lemma HitComesFromMatch(s: State, e: Event, id: nat)
    requires Enabled(s, e) && id in Apply(s, e).lookups && Apply(s, e).lookups[id].probe.Hit?
    requires !(id in s.lookups && s.lookups[id].probe.Hit?)
    ensures e.OfLookup? && e.id == id && e.read.MatchTag?
  {
  }

  lemma HitIsKept(s: State, e: Event, id: nat)
    requires Enabled(s, e) && id in s.lookups && s.lookups[id].probe.Hit?
    ensures id in Apply(s, e).lookups
    ensures var l, l' := s.lookups[id], Apply(s, e).lookups[id]; l'.probe == l.probe && l'.key == l.key
  {
  }

  lemma FinishedStep(s: State, e: Event, id: nat)
    requires Inv(s) && Enabled(s, e)
    requires id in s.lookups && s.lookups[id].probe.Hit? && !Reading(s, id)
    ensures var s' := Apply(s, e); id in s'.lookups && s'.lookups[id].probe.Hit? && !Reading(s', id)
  {
    assert LookupOk(s, id);
    HitIsKept(s, e, id);
  }

  lemma {:induction false} StaysFinished(ss: seq<State>, es: seq<Event>, n: nat, m: nat, id: nat)
    requires IsRun(ss, es) && n <= m < |ss|
    requires id in ss[n].lookups && ss[n].lookups[id].probe.Hit? && !Reading(ss[n], id)
    ensures id in ss[m].lookups && ss[m].lookups[id].probe.Hit? && !Reading(ss[m], id)
  {
    if n < m {
      StaysFinished(ss, es, n, m - 1, id);
      RunInv(ss, es, m - 1);
      FinishedStep(ss[m - 1], es[m - 1], id);
    }
  }

  /** Grace-period safety: when a word of a row is written, a lookup that matched the slot's tag before
      has no word of that row left to copy, then or at any later time. */
  lemma NoReaderUnderWrite(ss: seq<State>, es: seq<Event>, n: nat, m: nat, id: nat)
    requires IsRun(ss, es) && n < |es| && es[n].OfModify? && es[n].write.WriteWord? && n <= m < |ss|
    requires id in ss[n].lookups && ss[n].lookups[id].probe.Hit? && ss[n].lookups[id].probe.slot == es[n].write.slot
    ensures !LookupEnabled(ss[m], id, CopyWord)
  {
    RunInv(ss, es, n);
    StaysFinished(ss, es, n, m, id);
  }

  /** The instant at which a finished hit can be taken to have read its row. */
  ghost predicate ReadAtomically(s: State, id: nat, key: Key, slot: Slot, row: Row) {
    && id in s.lookups && s.lookups[id].key == key
    && slot in s.tags && s.tags[slot] == key
    && slot in s.rows && s.rows[slot] == row
    && slot in s.committed && s.committed[slot] == Entry(key, row)
  }

  lemma {:induction false} MatchInstant(ss: seq<State>, es: seq<Event>, n: nat, id: nat) returns (i: nat)
    requires IsRun(ss, es) && n < |ss|
    requires id in ss[n].lookups && ss[n].lookups[id].probe.Hit?
    ensures i < n
    ensures var l := ss[n].lookups[id]; ReadAtomically(ss[i], id, l.key, l.probe.slot, l.probe.row)
  {
    assert n > 0;
    i := n - 1;
    var s, e := ss[i], es[i];
    assert ss[i + 1] == Apply(s, e);
    if id in s.lookups && s.lookups[id].probe.Hit? {
      HitIsKept(s, e, id);
      i := MatchInstant(ss, es, n - 1, id);
    } else {
      HitComesFromMatch(s, e, id);
      RunInv(ss, es, i);
      assert Committed(s, e.read.slot);
    }
  }

  /** Every finished hit equals one atomic read: the copied words are the whole row that was
      published for the looked-up key at some instant between the start of the lookup and its end,
      although the words were copied one by one while a modify was running. */
  lemma HitIsAtomic(ss: seq<State>, es: seq<Event>, n: nat, id: nat)
    requires IsRun(ss, es) && n < |ss|
    requires id in ss[n].lookups && ss[n].lookups[id].probe.Hit? && |ss[n].lookups[id].copied| == ss[n].width
    ensures exists i :: 0 <= i < n &&
              ReadAtomically(ss[i], id, ss[n].lookups[id].key, ss[n].lookups[id].probe.slot, ss[n].lookups[id].copied)
  {
    var i := MatchInstant(ss, es, n, id);
    RunInv(ss, es, n);
    assert LookupOk(ss[n], id);
  }

  /** A row published in slot `x` is the one that was there at the start or the one some modify of
      this run was asked to write there. */
  ghost predicate Provenance(ss: seq<State>, es: seq<Event>, n: nat, x: Slot, v: Entry)
    requires |ss| > 0 && n <= |es|
  {
    (x in ss[0].committed && ss[0].committed[x] == v) ||
    exists j :: 0 <= j < n && es[j].OfModify? && es[j].write.Begin? && x in es[j].write.entries &&
      es[j].write.entries[x] == v
  }

  lemma CommittedStep(s: State, e: Event, x: Slot)
    requires Enabled(s, e) && x in Apply(s, e).committed
    ensures (x in s.committed && Apply(s, e).committed[x] == s.committed[x]) ||
            (!s.phase.Idle? && x in s.entries && Apply(s, e).committed[x] == s.entries[x])
  {
  }

  lemma EntriesStep(s: State, e: Event)
    requires Enabled(s, e) && !Apply(s, e).phase.Idle?
    ensures var begin := e.OfModify? && e.write.Begin?;
            Apply(s, e).entries == (if begin then e.write.entries else s.entries) && (!begin ==> !s.phase.Idle?)
  {
  }

  lemma {:induction false} CommittedProvenance(ss: seq<State>, es: seq<Event>, n: nat, x: Slot)
    requires IsRun(ss, es) && n < |ss|
    ensures x in ss[n].committed ==> Provenance(ss, es, n, x, ss[n].committed[x])
    ensures !ss[n].phase.Idle? && x in ss[n].entries ==> Provenance(ss, es, n, x, ss[n].entries[x])
  {
    if n > 0 {
      CommittedProvenance(ss, es, n - 1, x);
      var i := n - 1;
      assert ss[i + 1] == Apply(ss[i], es[i]);
      if x in ss[n].committed { CommittedStep(ss[i], es[i], x); }
      if !ss[n].phase.Idle? { EntriesStep(ss[i], es[i]); }
    }
  }

  /** Old row or new row, never a mixture: a finished hit returns the row the slot held at the start of
      the run or exactly the row that some modify was given for that slot and that key. */
  lemma HitIsOldOrNew(ss: seq<State>, es: seq<Event>, n: nat, id: nat)
    requires IsRun(ss, es) && n < |ss|
    requires id in ss[n].lookups && ss[n].lookups[id].probe.Hit? && |ss[n].lookups[id].copied| == ss[n].width
    ensures var l := ss[n].lookups[id]; Provenance(ss, es, n, l.probe.slot, Entry(l.key, l.copied))
  {
    HitIsAtomic(ss, es, n, id);
    var l := ss[n].lookups[id];
    var i :| 0 <= i < n && ReadAtomically(ss[i], id, l.key, l.probe.slot, l.copied);
    CommittedProvenance(ss, es, i, l.probe.slot);
  }

  /** The grace period cannot get stuck: a recorded kernel that has not finished has a step of its own
      that nothing in the modify blocks. */
  lemma PendingCanAdvance(ss: seq<State>, es: seq<Event>, n: nat, k: Kernel)
    requires IsRun(ss, es) && n < |ss|
    requires ss[n].phase.Recorded? && k in ss[n].phase.pending && !KernelDone(ss[n], k)
    ensures LookupEnabled(ss[n], k.id, MissTag) || LookupEnabled(ss[n], k.id, CopyWord)
  {
    RunInv(ss, es, n);
    assert Launched(ss[n], k);
    assert LookupOk(ss[n], k.id);
  }
}
