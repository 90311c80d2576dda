/** A buffer wrapper keeps copies of one buffer in several kinds of memory. An access names the kind; it allocates the
    copy if there is none, moves the content from the copy accessed last if asked to, and makes the named copy the
    last. */
module BufferCoherence {

  import opened Common

  datatype Kind = Unregistered | Host | Device | Managed

  type Content = seq<int>

  /** `buffers` maps a kind of memory to a buffer; `memory` holds the contents of the buffers. */
  datatype State = State(buffers: map<Kind, nat>, memory: seq<Content>, last: Kind)

  /** A wrapper around one given buffer. */
  function Wrap(kind: Kind, content: Content): State {
    State(map[kind := 0], [content], kind)
  }

  /** Only unregistered and host memory may share a buffer. */
  ghost predicate Inv(s: State) {
    && s.last in s.buffers
    && (forall k :: k in s.buffers ==> s.buffers[k] < |s.memory|)
    && (forall k, l :: k in s.buffers && l in s.buffers && s.buffers[k] == s.buffers[l] && k != l ==> MayShare(k))
  }

  predicate MayShare(k: Kind) {
    k == Unregistered || k == Host
  }

  function Current(s: State): Content
    requires Inv(s)
  {
    s.memory[s.buffers[s.last]]
  }

  /** Whether an access is refused: a managed buffer cannot be allocated, and a constant one must be copied. */
  predicate Refused(isConst: bool, s: State, k: Kind, copy: bool) {
    k !in s.buffers && (k == Managed || (isConst && !copy))
  }

  function Allocate(s: State, k: Kind, junk: Content): State {
    s.(buffers := s.buffers[k := |s.memory|], memory := s.memory + [junk])
  }

  /** Moves the content of the last copy to the copy of kind `k`. */
  function Move(s: State, k: Kind): State
    requires Inv(s) && k in s.buffers
  {
    s.(memory := s.memory[s.buffers[k] := Current(s)])
  }

  /** A copy of kind `k` exists: unregistered memory reuses the host buffer. */
  function Prepare(s: State, k: Kind, junk: Content): State {
    if k in s.buffers then s
    else if k != Unregistered then Allocate(s, k, junk)
    else
      var h := if Host in s.buffers then s else Allocate(s, Host, junk);
      h.(buffers := h.buffers[Unregistered := h.buffers[Host]])
  }

  lemma PrepareInv(s: State, k: Kind, junk: Content)
    requires Inv(s)
    ensures Inv(Prepare(s, k, junk)) && k in Prepare(s, k, junk).buffers && Prepare(s, k, junk).last == s.last
    ensures Current(Prepare(s, k, junk)) == Current(s)
  {
  }

  /** Whether the access allocates memory. */
  predicate Allocates(s: State, k: Kind) {
    k !in s.buffers && !(k == Unregistered && Host in s.buffers)
  }

  /** The state after an access that is not refused. A constant wrapper copies only into new memory. */
  function Accessed(isConst: bool, s: State, k: Kind, copy: bool, junk: Content): State
    requires Inv(s) && !Refused(isConst, s, k, copy)
  {
    PrepareInv(s, k, junk);
    var s1 := Prepare(s, k, junk);
    (if copy && (!isConst || Allocates(s, k)) then Move(s1, k) else s1).(last := k)
  }

  lemma AccessedInv(isConst: bool, s: State, k: Kind, copy: bool, junk: Content)
    requires Inv(s) && !Refused(isConst, s, k, copy)
    ensures Inv(Accessed(isConst, s, k, copy, junk))
  {
    PrepareInv(s, k, junk);
  }

  class BufferWrapper {
    const isConst: bool
    var buffers: map<Kind, nat>
    var memory: seq<Content>
    var last: Kind

    constructor (isConst: bool, kind: Kind, content: Content)
      ensures this.isConst == isConst && Fields() == Wrap(kind, content) && Inv(Fields())
    {
      this.isConst := isConst;
      buffers, memory, last := map[kind := 0], [content], kind;
    }

    ghost function Fields(): State
      reads this
    {
      State(buffers, memory, last)
    }

    /** Returns the buffer of kind `k`, or nothing if the access is refused. Unregistered memory reuses the host buffer,
        which is accessed first. */
    method AccessBuffer(k: Kind, copy: bool, junk: Content) returns (r: Option<nat>)
      requires Inv(Fields())
      modifies this
      ensures Inv(Fields()) && (r.None? <==> Refused(isConst, old(Fields()), k, copy))
      ensures r.None? ==> Fields() == old(Fields())
      ensures r.Some? ==> Fields() == Accessed(isConst, old(Fields()), k, copy, junk) && r.value == buffers[k]
      decreases if k == Unregistered then 1 else 0
    {
      AccessedIfAllowed(isConst, Fields(), k, copy, junk);
      var newBuffer := false;
      if k !in buffers {
        if isConst && !copy {
          return None;
        }
        match k {
          case Unregistered =>
            UnregisteredIsHost(isConst, Fields(), copy, junk);
            var host := AccessBuffer(Host, copy, junk);
            buffers := buffers[Unregistered := host.value];
          case Host =>
            buffers, memory := buffers[Host := |memory|], memory + [junk];
          case Device =>
            buffers, memory := buffers[Device := |memory|], memory + [junk];
          case Managed =>
            return None;
        }
        newBuffer := true;
      }
      if copy && (!isConst || newBuffer) {
        CopyFromLast(k);
      }
      last := k;
      r := Some(buffers[k]);
    }

    method CopyFromLast(k: Kind)
      requires last in buffers && k in buffers && buffers[last] < |memory| && buffers[k] < |memory|
      modifies this`memory
      ensures memory == old(memory)[buffers[k] := old(memory)[buffers[last]]]
    {
      var src, dst := buffers[last], buffers[k];
      if src != dst {
        memory := memory[dst := memory[src]];
      }
    }
  }

  lemma AccessedIfAllowed(isConst: bool, s: State, k: Kind, copy: bool, junk: Content)
    requires Inv(s)
    ensures !Refused(isConst, s, k, copy) ==> Inv(Accessed(isConst, s, k, copy, junk))
  {
    if !Refused(isConst, s, k, copy) {
      AccessedInv(isConst, s, k, copy, junk);
    }
  }

  /** An access to unregistered memory that has no buffer yet is an access to host memory, shared. */
  lemma UnregisteredIsHost(isConst: bool, s: State, copy: bool, junk: Content)
    requires Inv(s) && Unregistered !in s.buffers && (isConst ==> copy)
    ensures !Refused(isConst, s, Host, copy)
    ensures var h := Accessed(isConst, s, Host, copy, junk);
            && Host in h.buffers
            && Accessed(isConst, s, Unregistered, copy, junk) ==
               h.(buffers := h.buffers[Unregistered := h.buffers[Host]], last := Unregistered)
  {
  }

  // ---------------------------------------------------------------------------------------------
  // Runs of accesses and of writes to the buffer returned last.

  datatype Event = Access(kind: Kind, copy: bool, junk: Content) | Write(content: Content)

  /** `latest` is the content written last and `holders` the buffers that a caller knows to hold it. */
  datatype Tracked = Tracked(s: State, latest: Content, holders: set<nat>)

  function Next(isConst: bool, t: Tracked, e: Event): Tracked
    requires Inv(t.s)
  {
    match e
    case Access(k, copy, junk) =>
      if Refused(isConst, t.s, k, copy) then t
      else
        AccessedInv(isConst, t.s, k, copy, junk);
        PrepareInv(t.s, k, junk);
        var s := Accessed(isConst, t.s, k, copy, junk);
        var id := s.buffers[k];
        var moved := copy && (!isConst || Allocates(t.s, k));
        Tracked(s, t.latest,
                if !moved then t.holders
                else if t.s.buffers[t.s.last] in t.holders then t.holders + {id} else t.holders - {id})
    case Write(content) =>
      var id := t.s.buffers[t.s.last];
      Tracked(t.s.(memory := t.s.memory[id := content]), content, {id})
  }

  function Start(kind: Kind, content: Content): Tracked {
    Tracked(Wrap(kind, content), content, {0})
  }

  ghost predicate IsRun(isConst: bool, ts: seq<Tracked>, es: seq<Event>) {
    && |ts| == |es| + 1 && (exists k, c :: ts[0] == Start(k, c))
    && forall i :: 0 <= i < |es| ==> IsStep(isConst, ts[i], es[i], ts[i + 1])
  }

  /** A step is defined on consistent states; that a run meets no others is `RunSound`. */
  ghost predicate IsStep(isConst: bool, t: Tracked, e: Event, t': Tracked) {
    Inv(t.s) ==> t' == Next(isConst, t, e)
  }

  ghost predicate Sound(t: Tracked) {
    Inv(t.s) && forall id :: id in t.holders ==> id < |t.s.memory| && t.s.memory[id] == t.latest
  }

  lemma StepSound(isConst: bool, t: Tracked, e: Event)
    requires Sound(t)
    ensures Sound(Next(isConst, t, e))
  {
    if e.Access? && !Refused(isConst, t.s, e.kind, e.copy) {
      AccessedInv(isConst, t.s, e.kind, e.copy, e.junk);
      PrepareInv(t.s, e.kind, e.junk);
      PrepareKeeps(t.s, e.kind, e.junk);
    }
  }

  /** Preparing a copy leaves the contents of the buffers there are. */
  lemma PrepareKeeps(s: State, k: Kind, junk: Content)
    requires Inv(s)
    ensures |s.memory| <= |Prepare(s, k, junk).memory| <= |s.memory| + 1
    ensures forall id :: 0 <= id < |s.memory| ==> Prepare(s, k, junk).memory[id] == s.memory[id]
    ensures |Prepare(s, k, junk).memory| > |s.memory| <==> Allocates(s, k)
    ensures Allocates(s, k) ==>
              Prepare(s, k, junk).buffers[k] == |s.memory| && Prepare(s, k, junk).memory[|s.memory|] == junk
  {
  }

  lemma {:induction false} RunSound(isConst: bool, ts: seq<Tracked>, es: seq<Event>, n: nat)
    requires IsRun(isConst, ts, es) && n <= |es|
    ensures Sound(ts[n])
  {
    if n > 0 {
      RunSound(isConst, ts, es, n - 1);
      assert IsStep(isConst, ts[n - 1], es[n - 1], ts[n]);
      StepSound(isConst, ts[n - 1], es[n - 1]);
    }
  }

  /** An access that asks for the content gets that of the copy accessed last, also where unregistered memory shares the
      host buffer; a constant wrapper gets it from the copy of kind `k` itself if there is one. */
  lemma CopyReturnsCurrent(isConst: bool, s: State, k: Kind, junk: Content)
    requires Inv(s) && !Refused(isConst, s, k, true)
    ensures Inv(Accessed(isConst, s, k, true, junk))
    ensures !isConst || Allocates(s, k) ==> Current(Accessed(isConst, s, k, true, junk)) == Current(s)
    ensures isConst && k in s.buffers ==> Current(Accessed(isConst, s, k, true, junk)) == s.memory[s.buffers[k]]
  {
    AccessedInv(isConst, s, k, true, junk);
    PrepareInv(s, k, junk);
    PrepareKeeps(s, k, junk);
  }

  /** Every access without a copy is followed by a write. */
  ghost predicate Disciplined(es: seq<Event>) {
    forall i :: 0 <= i < |es| && es[i].Access? && !es[i].copy ==> i + 1 < |es| && es[i + 1].Write?
  }

  /** If every access without a copy is followed by a write, every other access returns what was written last. */
  lemma {:induction false} LatestReturned(ts: seq<Tracked>, es: seq<Event>, n: nat)
    requires IsRun(false, ts, es) && n <= |es| && Disciplined(es)
    requires n > 0 && es[n - 1].Access? ==> es[n - 1].copy
    ensures Sound(ts[n]) && ts[n].s.buffers[ts[n].s.last] in ts[n].holders && Current(ts[n].s) == ts[n].latest
  {
    RunSound(false, ts, es, n);
    if n > 0 {
      var t, e := ts[n - 1], es[n - 1];
      RunSound(false, ts, es, n - 1);
      assert IsStep(false, t, e, ts[n]);
      if e.Access? {
        assert n >= 2 && es[n - 2].Access? ==> es[n - 2].copy;
        LatestReturned(ts, es, n - 1);
      }
    }
  }

  /** Nothing that is written, and nothing a new buffer starts with, equals the content of another buffer. */
  ghost predicate Distinguishable(t: Tracked, e: Event) {
    match e
    case Access(_, _, junk) => junk != t.latest
    case Write(content) =>
      t.s.last in t.s.buffers ==>
      forall id :: 0 <= id < |t.s.memory| && id != t.s.buffers[t.s.last] ==> t.s.memory[id] != content
  }

  ghost predicate Exact(t: Tracked) {
    Inv(t.s) && forall id :: 0 <= id < |t.s.memory| ==> (id in t.holders <==> t.s.memory[id] == t.latest)
  }

  /** As long as contents can be told apart, the returned buffer holds what was written last exactly if it is one of the
      holders: a caller can tell from its own accesses. */
  lemma StepExact(isConst: bool, t: Tracked, e: Event)
    requires Sound(t) && Exact(t) && Distinguishable(t, e)
    ensures Exact(Next(isConst, t, e))
  {
    StepSound(isConst, t, e);
    if e.Access? && !Refused(isConst, t.s, e.kind, e.copy) {
      PrepareInv(t.s, e.kind, e.junk);
      PrepareKeeps(t.s, e.kind, e.junk);
    }
  }

  lemma {:induction false} LatestIff(isConst: bool, ts: seq<Tracked>, es: seq<Event>, n: nat)
    requires IsRun(isConst, ts, es) && n <= |es| && forall i :: 0 <= i < |es| ==> Distinguishable(ts[i], es[i])
    ensures Exact(ts[n]) && (Current(ts[n].s) == ts[n].latest <==> ts[n].s.buffers[ts[n].s.last] in ts[n].holders)
  {
    RunSound(isConst, ts, es, n);
    if n > 0 {
      LatestIff(isConst, ts, es, n - 1);
      RunSound(isConst, ts, es, n - 1);
      assert IsStep(isConst, ts[n - 1], es[n - 1], ts[n]);
      StepExact(isConst, ts[n - 1], es[n - 1]);
    }
  }

  /** Writing on the device, going to a new host buffer without a copy and back with one loses what was written. */
  lemma SkippedCopyLoses()
    ensures var s := Wrap(Device, [1]);
            var s1 := Accessed(false, s, Host, false, [0]);
            var s2 := Accessed(false, s1, Device, true, [0]);
            Inv(s) && Inv(s1) && Inv(s2) && Current(s2) == [0]
  {
    var s := Wrap(Device, [1]);
    var s1 := Accessed(false, s, Host, false, [0]);
    AccessedInv(false, s, Host, false, [0]);
    assert s1.buffers == map[Device := 0, Host := 1] && s1.memory == [[1], [0]];
  }

  ghost predicate AllHold(s: State, content: Content) {
    Inv(s) && forall k :: k in s.buffers ==> s.memory[s.buffers[k]] == content
  }

  lemma ConstStep(s: State, k: Kind, copy: bool, junk: Content, content: Content)
    requires AllHold(s, content) && !Refused(true, s, k, copy)
    ensures AllHold(Accessed(true, s, k, copy, junk), content)
  {
    AccessedInv(true, s, k, copy, junk);
    PrepareInv(s, k, junk);
    PrepareKeeps(s, k, junk);
  }

  /** All copies of a constant wrapper hold the original, in every reachable state. */
  lemma {:induction false} ConstHolds(ts: seq<Tracked>, es: seq<Event>, n: nat)
    requires IsRun(true, ts, es) && n <= |es| && forall i :: 0 <= i < |es| ==> es[i].Access?
    ensures AllHold(ts[n].s, ts[0].latest)
  {
    if n > 0 {
      var t, e := ts[n - 1], es[n - 1];
      ConstHolds(ts, es, n - 1);
      assert IsStep(true, t, e, ts[n]) && e.Access?;
      if !Refused(true, t.s, e.kind, e.copy) {
        ConstStep(t.s, e.kind, e.copy, e.junk, ts[0].latest);
      }
    }
  }
}
