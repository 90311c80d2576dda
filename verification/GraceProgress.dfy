/** From every state that the grace-period protocol can reach, the modify in progress can be brought to its end and the
    lock given back, whatever lookups and custom flows are in flight. */
module GraceProgress {

  import opened GracePeriod

  /** `ss` lists the states of a path from `s` to `t` along the events `es`. */
  ghost predicate IsPath(s: State, ss: seq<State>, es: seq<Event>, t: State) {
    && |ss| == |es| + 1 && ss[0] == s && ss[|es|] == t
    && forall i :: 0 <= i < |es| ==> Enabled(ss[i], es[i]) && ss[i + 1] == Apply(ss[i], es[i])
  }

  ghost predicate Leads(s: State, t: State) {
    exists ss, es :: IsPath(s, ss, es, t)
  }

  lemma LeadsSelf(s: State)
    ensures Leads(s, s)
  {
    assert IsPath(s, [s], [], s);
  }

  lemma LeadsOn(s: State, e: Event, t: State)
    requires Enabled(s, e) && Leads(Apply(s, e), t)
    ensures Leads(s, t)
  {
    var ss, es :| IsPath(Apply(s, e), ss, es, t);
    var ss', es' := [s] + ss, [e] + es;
    forall i | 0 <= i < |es'|
      ensures Enabled(ss'[i], es'[i]) && ss'[i + 1] == Apply(ss'[i], es'[i])
    {
      if i > 0 {
        assert Enabled(ss[i - 1], es[i - 1]) && ss[i] == Apply(ss[i - 1], es[i - 1]);
      }
    }
    assert IsPath(s, ss', es', t);
  }

  /** No modify is in progress and the lock is free. */
  predicate Quiet(s: State) {
    s.phase.Idle? && !s.writerHeld
  }

  // ---------------------------------------------------------------------------------------------
  // What is left to do in each phase.

  ghost function ToWrite(s: State): set<(Slot, nat)> {
    set x: Slot, j: nat | x in s.entries && j < s.width :: (x, j)
  }

  /** The words that a lookup still has to copy, and one more for its tag. */
  ghost function Steps(s: State, k: Kernel): nat {
    if k.id !in s.lookups || KernelDone(s, k) || |s.lookups[k.id].copied| > s.width then 0
    else 1 + s.width - |s.lookups[k.id].copied|
  }

  ghost function Unfinished(s: State): set<Kernel> {
    if s.phase.Recorded? then set k | k in s.phase.pending && !KernelDone(s, k) else {}
  }

  ghost function LockedFlows(s: State): set<nat> {
    set id | id in s.lookups && s.lookups[id].locked
  }

  /** How far the modify is from its end: the phases to come, and what is left in this one. */
  function Rank(s: State): nat {
    match s.phase
    case Idle => if s.writerHeld then 1 else 0
    case Publishing(_) => 2
    case Writing(_) => 3
    case Recorded(_) => 4
    case Locked => 5
    case Synced => 6
    case Invalidating(_) => 7
  }

  ghost function Left(s: State): nat {
    match s.phase
    case Invalidating(cleared) => |s.entries.Keys - cleared|
    case Synced => |LockedFlows(s)|
    case Recorded(_) => |Unfinished(s)|
    case Writing(written) => |ToWrite(s) - written|
    case Publishing(published) => |s.entries.Keys - published|
    case _ => 0
  }

  /** `e` brings the modify closer to its end. */
  ghost predicate Helps(s: State, e: Event) {
    Enabled(s, e) &&
    var s' := Apply(s, e);
    Rank(s') < Rank(s) || (Rank(s') == Rank(s) && Left(s') < Left(s))
  }

  lemma Smaller<T>(a: set<T>, b: set<T>, x: T)
    requires b == a - {x} && x in a
    ensures |b| < |a|
  {
    assert a == b + {x};
  }

  lemma ClearHelps(s: State, x: Slot)
    requires ModifyEnabled(s, ClearTag(x)) && x !in s.phase.cleared
    ensures Helps(s, OfModify(ClearTag(x)))
  {
    Smaller(s.entries.Keys - s.phase.cleared, s.entries.Keys - (s.phase.cleared + {x}), x);
  }

  lemma PublishHelps(s: State, x: Slot)
    requires ModifyEnabled(s, PublishTag(x)) && x !in s.phase.published
    ensures Helps(s, OfModify(PublishTag(x)))
  {
    Smaller(s.entries.Keys - s.phase.published, s.entries.Keys - (s.phase.published + {x}), x);
  }

  lemma HelpInvalidating(s: State) returns (e: Event)
    requires Inv(s) && s.phase.Invalidating?
    ensures Helps(s, e)
  {
    if x :| x in s.entries && x !in s.phase.cleared {
      e := OfModify(ClearTag(x));
      ClearHelps(s, x);
    } else {
      e := OfModify(SyncStream);
    }
  }

  lemma HelpSynced(s: State) returns (e: Event)
    requires Inv(s) && s.phase.Synced?
    ensures Helps(s, e)
  {
    if id :| id in s.lookups && s.lookups[id].locked {
      e := OfLookup(id, FlowEnd);
      Smaller(LockedFlows(s), LockedFlows(Apply(s, e)), id);
    } else {
      e := OfModify(TakeLock);
    }
  }

  lemma HelpWriting(s: State) returns (e: Event)
    requires Inv(s) && s.phase.Writing?
    ensures Helps(s, e)
  {
    if x: Slot, j: nat :| x in s.entries && j < s.width && (x, j) !in s.phase.written {
      e := OfModify(WriteWord(x, j));
      WriteHelps(s, x, j);
    } else {
      e := OfModify(RowsDone);
    }
  }

  lemma WriteHelps(s: State, x: Slot, j: nat)
    requires ModifyEnabled(s, WriteWord(x, j)) && j < s.width && (x, j) !in s.phase.written
    ensures Helps(s, OfModify(WriteWord(x, j)))
  {
    var s' := NextModify(s, WriteWord(x, j));
    assert ToWrite(s') == ToWrite(s);
    Smaller(ToWrite(s) - s.phase.written, ToWrite(s') - s'.phase.written, (x, j));
  }

  lemma HelpPublishing(s: State) returns (e: Event)
    requires Inv(s) && s.phase.Publishing?
    ensures Helps(s, e)
  {
    if x :| x in s.entries && x !in s.phase.published {
      e := OfModify(PublishTag(x));
      PublishHelps(s, x);
    } else {
      e := OfModify(Finish);
    }
  }

  // ---------------------------------------------------------------------------------------------
  // Finishing a recorded kernel.

  /** A step of lookup `id` that ends its kernels or copies a word. */
  lemma KernelStep(s: State, k: Kernel) returns (e: LookupStep)
    requires Inv(s) && s.phase.Recorded? && k in s.phase.pending && !KernelDone(s, k)
    ensures LookupEnabled(s, k.id, e) && (e == MissTag || e == CopyWord)
    ensures Steps(Apply(s, OfLookup(k.id, e)), k) < Steps(s, k)
  {
    assert Launched(s, k) && LookupOk(s, k.id);
    var l := s.lookups[k.id];
    e := if l.probe.Unread? then MissTag else CopyWord;
    if e == CopyWord {
      assert Reading(s, k.id) && |l.copied| <= |l.probe.row|;
    }
  }

  /** What is done stays done. */
  lemma DoneStays(s: State, id: nat, e: LookupStep, k: Kernel)
    requires Inv(s) && LookupEnabled(s, id, e) && (e == MissTag || e == CopyWord) && KernelDone(s, k)
    ensures KernelDone(Apply(s, OfLookup(id, e)), k)
  {
    assert LookupOk(s, k.id);
  }

  lemma FewerUnfinished(s: State, id: nat, e: LookupStep, k: Kernel)
    requires Inv(s) && s.phase.Recorded? && LookupEnabled(s, id, e) && (e == MissTag || e == CopyWord)
    requires k in s.phase.pending && !KernelDone(s, k)
    ensures var s' := Apply(s, OfLookup(id, e));
            |Unfinished(s')| <= |Unfinished(s)| && (KernelDone(s', k) ==> |Unfinished(s')| < |Unfinished(s)|)
  {
    var s' := Apply(s, OfLookup(id, e));
    forall q | q in Unfinished(s')
      ensures q in Unfinished(s)
    {
      if KernelDone(s, q) {
        DoneStays(s, id, e, q);
      }
    }
    SubsetFewer(Unfinished(s'), Unfinished(s), k);
  }

  lemma SubsetFewer<T>(a: set<T>, b: set<T>, x: T)
    requires a <= b && x in b
    ensures |a| <= |b| && (x !in a ==> |a| < |b|)
  {
    assert b == a + (b - a);
    if x !in a {
      assert x in b - a;
    }
  }

  // ---------------------------------------------------------------------------------------------
  // To the end.

  /** The path that finishes a recorded kernel and goes on from there. */
  lemma {:induction false} FinishKernel(s: State, k: Kernel) returns (t: State)
    requires Inv(s) && s.phase.Recorded? && k in s.phase.pending && !KernelDone(s, k)
    ensures Leads(s, t) && Inv(t) && Quiet(t)
    decreases 4, |Unfinished(s)|, 1, Steps(s, k)
  {
    var e := KernelStep(s, k);
    var s' := Apply(s, OfLookup(k.id, e));
    StepInv(s, OfLookup(k.id, e));
    FewerUnfinished(s, k.id, e, k);
    if KernelDone(s', k) {
      t := CanFinish(s');
    } else {
      t := FinishKernel(s', k);
    }
    LeadsOn(s, OfLookup(k.id, e), t);
  }

  /** Every reachable state leads to one in which no modify is in progress and the lock is free. */
  lemma {:induction false} CanFinish(s: State) returns (t: State)
    requires Inv(s)
    ensures Leads(s, t) && Inv(t) && Quiet(t)
    decreases Rank(s), Left(s), 2, 0
  {
    if Quiet(s) {
      t := s;
      LeadsSelf(s);
    } else if s.phase.Recorded? && Unfinished(s) != {} {
      var k :| k in Unfinished(s);
      t := FinishKernel(s, k);
    } else {
      var e := NextHelp(s);
      StepInv(s, e);
      t := CanFinish(Apply(s, e));
      LeadsOn(s, e, t);
    }
  }

  lemma NextHelp(s: State) returns (e: Event)
    requires Inv(s) && !Quiet(s) && (s.phase.Recorded? ==> Unfinished(s) == {})
    ensures Helps(s, e)
  {
    match s.phase
    case Idle => e := OfModify(ReleaseLock);
    case Invalidating(_) => e := HelpInvalidating(s);
    case Synced => e := HelpSynced(s);
    case Locked => e := OfModify(Record);
    case Recorded(pending) =>
      forall k | k in pending
        ensures KernelDone(s, k)
      {
        assert k !in Unfinished(s);
      }
      e := OfModify(GraceOver);
    case Writing(_) => e := HelpWriting(s);
    case Publishing(_) => e := HelpPublishing(s);
  }

  /** In every reachable state of every interleaving the modify can still be completed; then another modify or a custom
      flow can start. */
  lemma ModifyCompletes(ss: seq<State>, es: seq<Event>, n: nat, id: nat, key: Key) returns (t: State)
    requires IsRun(ss, es) && n < |ss|
    ensures Leads(ss[n], t) && ModifyEnabled(t, Begin(Invalidation, map[]))
    ensures id !in t.lookups ==> LookupEnabled(t, id, FlowStart(key))
  {
    RunInv(ss, es, n);
    t := CanFinish(ss[n]);
  }

  // ---------------------------------------------------------------------------------------------
  // Lookups.

  /** Lookup `id` has matched slot `x` and goes on to copy `row`. */
  ghost predicate OnRow(s: State, id: nat, x: Slot, row: Row) {
    && Inv(s) && id in s.lookups && s.lookups[id].probe == Hit(x, row) && s.lookups[id].rowLaunched
    && |s.lookups[id].copied| <= s.width
  }

  lemma {:induction false} CopiesRow(s: State, id: nat, x: Slot, row: Row) returns (t: State)
    requires OnRow(s, id, x, row)
    ensures Leads(s, t) && OnRow(t, id, x, row) && t.lookups[id].copied == row
    ensures t == s.(lookups := t.lookups) && t.lookups[id].locked == s.lookups[id].locked
    decreases s.width - |s.lookups[id].copied|
  {
    assert LookupOk(s, id);
    var l := s.lookups[id];
    if |l.copied| == s.width {
      t := s;
      LeadsSelf(s);
    } else {
      assert Reading(s, id);
      StepInv(s, OfLookup(id, CopyWord));
      t := CopiesRow(Apply(s, OfLookup(id, CopyWord)), id, x, row);
      LeadsOn(s, OfLookup(id, CopyWord), t);
    }
  }

  /** A lookup that has matched nothing yet can still match slot `x`: one kernel does all, or a flow that holds the lock
      launches the two in turn. */
  predicate CanMatch(s: State, id: nat, x: Slot) {
    && id in s.lookups && s.lookups[id].probe == Unread && x in s.tags && s.tags[x] == s.lookups[id].key
    && if s.lookups[id].locked then !s.lookups[id].tagLaunched && !s.lookups[id].rowLaunched
       else s.lookups[id].tagLaunched && s.lookups[id].rowLaunched
  }

  /** Step `e` of lookup `id` is possible and keeps the invariant. */
  lemma Goes(s: State, id: nat, e: LookupStep) returns (s': State)
    requires Inv(s) && LookupEnabled(s, id, e)
    ensures s' == Apply(s, OfLookup(id, e)) && Inv(s')
  {
    s' := Apply(s, OfLookup(id, e));
    StepInv(s, OfLookup(id, e));
  }

  lemma KernelFinds(s: State, id: nat, x: Slot) returns (t: State)
    requires Inv(s) && CanMatch(s, id, x) && !s.lookups[id].locked
    ensures Leads(s, t) && id in t.lookups && t.lookups[id].copied == s.rows[x]
  {
    assert LookupOk(s, id);
    var s1 := Goes(s, id, MatchTag(x));
    t := CopiesRow(s1, id, x, s.rows[x]);
    LeadsOn(s, OfLookup(id, MatchTag(x)), t);
  }

  lemma FlowFinds(s: State, id: nat, x: Slot) returns (t: State)
    requires Inv(s) && CanMatch(s, id, x) && s.lookups[id].locked
    ensures Leads(s, t) && id in t.lookups && t.lookups[id].copied == s.rows[x] && t.lookups[id].locked
    ensures LookupEnabled(t, id, FlowEnd) && !NextLookup(t, id, FlowEnd).locked
  {
    assert LookupOk(s, id);
    var s1 := Goes(s, id, FlowLaunchTags);
    var s2 := Goes(s1, id, MatchTag(x));
    var s3 := Goes(s2, id, FlowLaunchRows);
    t := CopiesRow(s3, id, x, s.rows[x]);
    LeadsOn(s2, OfLookup(id, FlowLaunchRows), t);
    LeadsOn(s1, OfLookup(id, MatchTag(x)), t);
    LeadsOn(s, OfLookup(id, FlowLaunchTags), t);
  }

  /** A key that is in the cache can be found: a lookup that has just been launched for it can match its slot and copy
      the whole row. So can a custom flow, and then end. */
  lemma ResidentIsFound(ss: seq<State>, es: seq<Event>, n: nat, id: nat, x: Slot) returns (t: State)
    requires IsRun(ss, es) && n < |ss| && id !in ss[n].lookups && x in ss[n].tags
    ensures x in ss[n].rows && LookupEnabled(ss[n], id, Launch(ss[n].tags[x]))
    ensures Leads(Apply(ss[n], OfLookup(id, Launch(ss[n].tags[x]))), t)
    ensures id in t.lookups && t.lookups[id].copied == ss[n].rows[x]
  {
    RunInv(ss, es, n);
    var s := Goes(ss[n], id, Launch(ss[n].tags[x]));
    t := KernelFinds(s, id, x);
  }

  lemma ResidentIsFoundByFlow(ss: seq<State>, es: seq<Event>, n: nat, id: nat, x: Slot) returns (t: State)
    requires IsRun(ss, es) && n < |ss| && id !in ss[n].lookups && x in ss[n].tags && !ss[n].writerHeld
    ensures x in ss[n].rows && LookupEnabled(ss[n], id, FlowStart(ss[n].tags[x]))
    ensures Leads(Apply(ss[n], OfLookup(id, FlowStart(ss[n].tags[x]))), t)
    ensures id in t.lookups && t.lookups[id].copied == ss[n].rows[x]
    ensures LookupEnabled(t, id, FlowEnd) && !NextLookup(t, id, FlowEnd).locked
  {
    RunInv(ss, es, n);
    var s := Goes(ss[n], id, FlowStart(ss[n].tags[x]));
    t := FlowFinds(s, id, x);
  }
}
