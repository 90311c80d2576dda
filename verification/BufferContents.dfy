/** What a buffer wrapper does, told without buffers: for each kind of memory the content that a caller sees there.
    Host and unregistered memory are one and the same unless the wrapper was made for unregistered memory. */
module BufferContents {

  import BC = BufferCoherence

  type Kind = BC.Kind
  type Content = BC.Content

  /** `shared` is set once unregistered memory has been given the host buffer. */
  datatype View = View(contents: map<Kind, Content>, last: Kind, shared: bool)

  function Put(v: View, k: Kind, content: Content): View {
    v.(contents := if v.shared && (k == BC.Host || k == BC.Unregistered)
                   then v.contents[BC.Host := content][BC.Unregistered := content] else v.contents[k := content])
  }

  predicate Denied(isConst: bool, v: View, k: Kind, copy: bool) {
    k !in v.contents && (k == BC.Managed || (isConst && !copy))
  }

  /** What memory of a kind that was not used before starts with: unregistered memory with what host memory holds. */
  function Begins(v: View, k: Kind, junk: Content): Content {
    if k == BC.Unregistered && BC.Host in v.contents then v.contents[BC.Host] else junk
  }

  function Added(v: View, k: Kind, junk: Content): View {
    if k in v.contents then v
    else Put(v.(shared := v.shared || k == BC.Unregistered), k, Begins(v, k, junk))
  }

  /** A copy brings the content that was accessed last; a constant wrapper copies only into memory that was not
      there. */
  function Access(isConst: bool, v: View, k: Kind, copy: bool, junk: Content): View
    requires v.last in v.contents
  {
    var fresh_ := k !in v.contents && !(k == BC.Unregistered && BC.Host in v.contents);
    if Denied(isConst, v, k, copy) then v
    else
      var v1 := Added(v, k, junk);
      (if copy && (!isConst || fresh_) then Put(v1, k, v.contents[v.last]) else v1).(last := k)
  }

  function Step(isConst: bool, v: View, e: BC.Event): View
    requires v.last in v.contents
  {
    match e
    case Access(k, copy, junk) => Access(isConst, v, k, copy, junk)
    case Write(content) => Put(v, v.last, content)
  }

  /** The view beside a run, from the events alone. */
  function ViewAt(isConst: bool, kind: Kind, content: Content, es: seq<BC.Event>, n: nat): (v: View)
    requires n <= |es|
    ensures v.last in v.contents
  {
    if n == 0 then View(map[kind := content], kind, false)
    else Step(isConst, ViewAt(isConst, kind, content, es, n - 1), es[n - 1])
  }

  // ---------------------------------------------------------------------------------------------
  // The wrapper shows the view.

  ghost predicate Shows(s: BC.State, v: View) {
    && BC.Inv(s) && s.last == v.last && s.buffers.Keys == v.contents.Keys
    && (forall k :: k in s.buffers ==> s.memory[s.buffers[k]] == v.contents[k])
    && (v.shared ==> BC.Host in s.buffers && BC.Unregistered in s.buffers)
    && (BC.Host in s.buffers && BC.Unregistered in s.buffers ==>
          (v.shared <==> s.buffers[BC.Host] == s.buffers[BC.Unregistered]))
  }

  /** Buffers of different kinds are different, except for the shared one. */
  lemma Apart(s: BC.State, v: View, k: Kind, l: Kind)
    requires Shows(s, v) && k in s.buffers && l in s.buffers && k != l && s.buffers[k] == s.buffers[l]
    ensures v.shared && BC.MayShare(k) && BC.MayShare(l)
  {
    assert BC.MayShare(k) && BC.MayShare(l);
  }

  lemma PutShows(s: BC.State, v: View, k: Kind, content: Content)
    requires Shows(s, v) && k in s.buffers
    ensures Shows(s.(memory := s.memory[s.buffers[k] := content]), Put(v, k, content))
  {
    var s' := s.(memory := s.memory[s.buffers[k] := content]);
    forall l | l in s'.buffers
      ensures s'.memory[s'.buffers[l]] == Put(v, k, content).contents[l]
    {
      if l != k && s.buffers[l] == s.buffers[k] {
        Apart(s, v, k, l);
      }
    }
  }

  lemma AddedShows(s: BC.State, v: View, k: Kind, junk: Content)
    requires Shows(s, v) && k != BC.Managed
    ensures Shows(BC.Prepare(s, k, junk), Added(v, k, junk))
  {
    BC.PrepareInv(s, k, junk);
    BC.PrepareKeeps(s, k, junk);
  }

  lemma LastShows(s: BC.State, v: View, k: Kind)
    requires Shows(s, v) && k in s.buffers
    ensures Shows(s.(last := k), v.(last := k))
  {
  }

  lemma PreparedShows(isConst: bool, s: BC.State, v: View, k: Kind, copy: bool, junk: Content)
    requires Shows(s, v) && !BC.Refused(isConst, s, k, copy)
    ensures Shows(BC.Prepare(s, k, junk), Added(v, k, junk)) && k in BC.Prepare(s, k, junk).buffers
    ensures BC.Current(BC.Prepare(s, k, junk)) == v.contents[v.last]
  {
    BC.PrepareInv(s, k, junk);
    if k !in s.buffers {
      AddedShows(s, v, k, junk);
    }
  }

  lemma MovedShows(s: BC.State, v: View, k: Kind, content: Content)
    requires Shows(s, v) && k in s.buffers && content == BC.Current(s)
    ensures Shows(BC.Move(s, k), Put(v, k, content))
  {
    PutShows(s, v, k, content);
  }

  lemma AccessShows(isConst: bool, s: BC.State, v: View, k: Kind, copy: bool, junk: Content)
    requires Shows(s, v) && !BC.Refused(isConst, s, k, copy)
    ensures Shows(BC.Accessed(isConst, s, k, copy, junk), Access(isConst, v, k, copy, junk))
  {
    PreparedShows(isConst, s, v, k, copy, junk);
    var s1, v1, content := BC.Prepare(s, k, junk), Added(v, k, junk), v.contents[v.last];
    if copy && (!isConst || BC.Allocates(s, k)) {
      MovedShows(s1, v1, k, content);
      LastShows(BC.Move(s1, k), Put(v1, k, content), k);
    } else {
      LastShows(s1, v1, k);
    }
  }

  lemma StepShows(isConst: bool, t: BC.Tracked, e: BC.Event, v: View)
    requires Shows(t.s, v)
    ensures Shows(BC.Next(isConst, t, e).s, Step(isConst, v, e))
  {
    match e
    case Access(k, copy, junk) =>
      if !BC.Refused(isConst, t.s, k, copy) {
        AccessShows(isConst, t.s, v, k, copy, junk);
      }
    case Write(content) => PutShows(t.s, v, t.s.last, content);
  }

  /** In every reachable state each kind of memory that was accessed holds what the view says, and no other kind has a
      buffer. */
  lemma {:induction false} RunShows(isConst: bool, kind: Kind, content: Content, ts: seq<BC.Tracked>, es: seq<BC.Event>,
                                    n: nat)
    requires BC.IsRun(isConst, ts, es) && ts[0] == BC.Start(kind, content) && n <= |es|
    ensures Shows(ts[n].s, ViewAt(isConst, kind, content, es, n))
  {
    if n > 0 {
      RunShows(isConst, kind, content, ts, es, n - 1);
      assert BC.IsStep(isConst, ts[n - 1], es[n - 1], ts[n]);
      StepShows(isConst, ts[n - 1], es[n - 1], ViewAt(isConst, kind, content, es, n - 1));
    }
  }

  /** An access is refused if and only if it names memory that was neither wrapped nor accessed before, and either that
      is managed memory or a constant wrapper is not asked for the content. */
  lemma RefusedIff(isConst: bool, kind: Kind, content: Content, ts: seq<BC.Tracked>, es: seq<BC.Event>, n: nat, k: Kind,
                   copy: bool)
    requires BC.IsRun(isConst, ts, es) && ts[0] == BC.Start(kind, content) && n <= |es|
    ensures BC.Refused(isConst, ts[n].s, k, copy) <==>
            k !in ViewAt(isConst, kind, content, es, n).contents && (k == BC.Managed || (isConst && !copy))
  {
    RunShows(isConst, kind, content, ts, es, n);
  }

  /** What is written stays what every later access with a copy gives, as long as nothing else is written or accessed
      without a copy. */
  lemma {:induction false} WrittenIsRead(kind: Kind, content: Content, es: seq<BC.Event>, n: nat, m: nat)
    requires n < m <= |es| && es[n].Write? && forall i :: n < i < m ==> es[i].Access? && es[i].copy
    ensures var v := ViewAt(false, kind, content, es, m); v.contents[v.last] == es[n].content
  {
    if n + 1 < m {
      WrittenIsRead(kind, content, es, n, m - 1);
    }
  }
}
