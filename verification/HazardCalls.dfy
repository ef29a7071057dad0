/**
  What the hazard-pointer domain answers to each call, told from the events: an acquired array has as many
  records as were asked for, a slot reports a pointer that its own source held, a reset array protects
  nothing, and a dropped array goes back to the available list as it is.
 */
module HazardCalls {
  import opened Lists
  import opened HazardMachine
  import opened HazardInvariant
  import opened HazardSteps
  import opened HazardTheorems

  /** The domain takes the call from a client in this position. */
  ghost predicate Accepts(m: Mem, pc: Pc, a: Action) {
    match a
    case Acquire(n) => pc.Idle? && n >= 1
    case ProtectAll(srcs) => pc.Holding? && |srcs| == |pc.arr| && AreSources(m, srcs)
    case ResetAll => pc.Holding?
    case Drop => pc.Holding?
    case Run(_) => false
  }

  /** Client `c` made call `a` in event `i` and has only run since. */
  ghost predicate CalledAt(s0: State, events: seq<Event>, c: nat, i: nat, a: Action) {
    && i < |events| && events[i] == By(c, a)
    && c < |Exec(s0, events[..i]).pcs| && Accepts(Exec(s0, events[..i]).m, Exec(s0, events[..i]).pcs[c], a)
    && forall k | i < k < |events| && events[k].By? && events[k].c == c :: events[k].a.Run?
  }

  // ---------- Where a call stands ----------

  ghost predicate Acquiring(pc: Pc, n: nat) {
    && (pc.LoadAvail? || pc.FetchOr? || pc.Traverse? || pc.Unlock? || pc.NullTail?
        || pc.Collect? || pc.NewRec? || pc.LinkNew?)
    && pc.n == n
  }

  ghost predicate Protects(pc: Pc, arr: seq<int>, srcs: seq<nat>) {
    && (pc.ProtectLoad? || pc.ProtectStore? || pc.ProtectCheck? || pc.ProtectReset?)
    && pc.arr == arr && pc.srcs == srcs
  }

  ghost predicate Releasing(pc: Pc, arr: seq<int>) {
    (pc.Check? || pc.PushLoad? || pc.PushStore? || pc.PushCas?) && pc.arr == arr
  }

  /** The call was made with the array `arr` (if any) in use, and has not gone anywhere but to its answer. */
  ghost predicate Standing(pc: Pc, a: Action, arr: seq<int>) {
    match a
    case Acquire(n) => Acquiring(pc, n) || (pc.Holding? && pc.n == n && pc.out == [])
    case ProtectAll(srcs) => Protects(pc, arr, srcs) || (pc.Holding? && pc.arr == arr && |pc.out| == |srcs|)
    case ResetAll => (pc.Reset? && !pc.dropping && pc.arr == arr) || (pc.Holding? && pc.arr == arr && pc.out == [])
    case Drop => (pc.Reset? && pc.dropping && pc.arr == arr) || Releasing(pc, arr) || pc.Idle?
    case Run(_) => false
  }

  ghost function ArrayOf(pc: Pc): seq<int> { if pc.Holding? then pc.arr else [] }

  lemma {:induction false} CallStands(m: Mem, c: int, pc: Pc, a: Action)
    requires |m.owner| == |m.recs| && ClientOk(m, c, pc) && Accepts(m, pc, a)
    ensures Standing(Act(m, c, pc, a).1, a, ArrayOf(pc))
  {
  }

  lemma {:induction false} AcquireGoesOn(m: Mem, c: int, pc: Pc, n: nat, sp: bool)
    requires Acquiring(pc, n) && !Tick(m, c, pc, sp).1.Panicked?
    ensures Standing(Tick(m, c, pc, sp).1, Acquire(n), [])
  {
  }

  lemma {:induction false} ProtectGoesOn(m: Mem, c: int, pc: Pc, arr: seq<int>, srcs: seq<nat>, sp: bool)
    requires Protects(pc, arr, srcs) && |srcs| == |arr| && |pc.out| < |arr|
    ensures Standing(Tick(m, c, pc, sp).1, ProtectAll(srcs), arr)
  {
  }

  lemma {:induction false} ResetGoesOn(m: Mem, c: int, pc: Pc, a: Action, arr: seq<int>, sp: bool)
    requires Standing(pc, a, arr) && (a.ResetAll? || a.Drop?) && !Tick(m, c, pc, sp).1.Panicked?
    ensures Standing(Tick(m, c, pc, sp).1, a, arr)
  {
  }

  /** A step of the client keeps to its call. */
  lemma {:induction false} RunStands(m: Mem, c: int, pc: Pc, a: Action, arr: seq<int>, sp: bool)
    requires |m.owner| == |m.recs| && ClientOk(m, c, pc) && Standing(pc, a, arr) && !Tick(m, c, pc, sp).1.Panicked?
    requires a.ProtectAll? ==> |a.srcs| == |arr|
    requires a.Acquire? ==> arr == []
    ensures Standing(Tick(m, c, pc, sp).1, a, arr)
  {
    if pc.Holding? || pc.Idle? {
    } else if a.Acquire? {
      AcquireGoesOn(m, c, pc, a.n, sp);
    } else if a.ProtectAll? {
      ProtectGoesOn(m, c, pc, arr, a.srcs, sp);
    } else {
      ResetGoesOn(m, c, pc, a, arr, sp);
    }
  }

  /** The run up to and with the last event keeps the invariant. */
  lemma {:induction false} LastEvent(clients: nat, sources: seq<int>, events: seq<Event>)
    requires events != [] && SoundRun(InitState(clients, sources), events)
    ensures var s0, before := InitState(clients, sources), events[..|events| - 1];
      && SoundRun(s0, before) && StateInv(Exec(s0, before)) && StateInv(Exec(s0, events))
      && Exec(s0, events) == Apply(Exec(s0, before), events[|events| - 1])
      && |Exec(s0, events).pcs| == |Exec(s0, before).pcs|
  {
    InitInv(clients, sources);
    ExecKeeps(InitState(clients, sources), events);
    ExecKeeps(InitState(clients, sources), events[..|events| - 1]);
  }

  /** An event of another client, or a source that changes, leaves the client where it is. */
  lemma {:induction false} OtherEvent(s: State, e: Event, c: nat)
    requires c < |s.pcs| && !(e.By? && e.c == c)
    ensures c < |Apply(s, e).pcs| && Apply(s, e).pcs[c] == s.pcs[c]
  {
  }

  lemma {:induction false} EventStands(s: State, e: Event, c: nat, a: Action, arr: seq<int>)
    requires StateInv(s) && StateInv(Apply(s, e)) && c < |s.pcs| && Standing(s.pcs[c], a, arr)
    requires e.By? && e.c == c ==> e.a.Run?
    requires a.ProtectAll? ==> |a.srcs| == |arr|
    requires a.Acquire? ==> arr == []
    ensures c < |Apply(s, e).pcs| && Standing(Apply(s, e).pcs[c], a, arr)
  {
    if e.By? && e.c == c {
      RunIsTick(s, c, e.a.spurious);
      NotPanicked(Apply(s, e), c);
      assert ClientOk(s.m, c, s.pcs[c]);
      RunStands(s.m, c, s.pcs[c], a, arr, e.a.spurious);
    } else {
      OtherEvent(s, e, c);
    }
  }

  lemma {:induction false} RunIsTick(s: State, c: nat, sp: bool)
    requires c < |s.pcs|
    ensures var s' := Apply(s, By(c, Run(sp)));
      |s'.pcs| == |s.pcs| && s'.pcs[c] == Tick(s.m, c, s.pcs[c], sp).1 && s'.m == Tick(s.m, c, s.pcs[c], sp).0
  {
  }

  lemma {:induction false} NotPanicked(s: State, c: nat)
    requires StateInv(s) && c < |s.pcs|
    ensures !s.pcs[c].Panicked?
  {
    assert ClientOk(s.m, c, s.pcs[c]);
  }

  /** In every sound run, a client keeps to the call it made. */
  lemma {:induction false} CallIsFollowed(clients: nat, sources: seq<int>, events: seq<Event>, c: nat, i: nat,
                                          a: Action)
    requires SoundRun(InitState(clients, sources), events) && CalledAt(InitState(clients, sources), events, c, i, a)
    ensures var s0 := InitState(clients, sources);
      var s, at := Exec(s0, events), Exec(s0, events[..i]);
      && c < |at.pcs| == |s.pcs|
      && Standing(s.pcs[c], a, ArrayOf(at.pcs[c]))
  {
    var s0 := InitState(clients, sources);
    var before, e := events[..|events| - 1], events[|events| - 1];
    LastEvent(clients, sources, events);
    if |events| == i + 1 {
      assert ClientOk(Exec(s0, before).m, c, Exec(s0, before).pcs[c]);
      CallStands(Exec(s0, before).m, c, Exec(s0, before).pcs[c], a);
    } else {
      assert before[..i] == events[..i];
      CallIsFollowed(clients, sources, before, c, i, a);
      EventStands(Exec(s0, before), e, c, a, ArrayOf(Exec(s0, events[..i]).pcs[c]));
    }
  }

  /** In every sound run, the array that answers `acquire_many::<N>` has N distinct records, linked in order up
      to a null, and protects nothing yet. */
  lemma {:induction false} AcquireYieldsMany(clients: nat, sources: seq<int>, events: seq<Event>, c: nat, i: nat,
                                             n: nat)
    requires SoundRun(InitState(clients, sources), events)
    requires CalledAt(InitState(clients, sources), events, c, i, Acquire(n))
    ensures var s := Exec(InitState(clients, sources), events);
      && c < |s.pcs|
      && (s.pcs[c].Holding? ==>
            var arr := s.pcs[c].arr;
            && |arr| == n && Distinct(arr) && s.pcs[c].out == []
            && (forall j | 0 <= j < |arr| :: 0 <= arr[j] < |s.m.recs| && Available(s.m, arr[j]) == After(arr, j)))
      && (!s.pcs[c].Holding? ==> Acquiring(s.pcs[c], n))
  {
    CallIsFollowed(clients, sources, events, c, i, Acquire(n));
    ClientsConstant(clients, sources, events[..i]);
    AcquiredArrayIsChained(clients, sources, events, c);
  }

  lemma {:induction false} ClientsConstant(clients: nat, sources: seq<int>, events: seq<Event>)
    ensures |Exec(InitState(clients, sources), events).pcs| == clients
    ensures |Exec(InitState(clients, sources), events).m.src| == |sources|
  {
    if events != [] {
      ClientsConstant(clients, sources, events[..|events| - 1]);
      SourcesStay(Exec(InitState(clients, sources), events[..|events| - 1]), events[|events| - 1]);
    }
  }

  /** Only writes change sources, and none is added or removed. */
  lemma {:induction false} SourcesStay(s: State, e: Event)
    ensures |Apply(s, e).pcs| == |s.pcs| && |Apply(s, e).m.src| == |s.m.src|
    ensures e.By? ==> Apply(s, e).m.src == s.m.src
  {
  }

  ghost predicate Changes(e: Event, j: nat) { e.Write? && e.j == j }

  /** A source holds what the last change to it put there, and what it was given when there was none. */
  lemma {:induction false} SourceIsLastWritten(clients: nat, sources: seq<int>, events: seq<Event>, j: nat, i: nat,
                                               v: int)
    requires j < |sources| && i <= |events| && if i == 0 then sources[j] == v else events[i - 1] == Write(j, v)
    requires forall k | i <= k < |events| :: !Changes(events[k], j)
    ensures var src := Exec(InitState(clients, sources), events).m.src;
      |src| == |sources| && src[j] == v
  {
    ClientsConstant(clients, sources, events);
    if events != [] {
      var before, e := events[..|events| - 1], events[|events| - 1];
      ClientsConstant(clients, sources, before);
      if i < |events| {
        assert !Changes(e, j);
        SourceIsLastWritten(clients, sources, before, j, i, v);
        SourcesStay(Exec(InitState(clients, sources), before), e);
      }
    }
  }

  // ---------- Slots and sources ----------

  /** In the state before event `k` the source held `p`, and record `r` has published `p` since that event. */
  ghost predicate HeldAt(s0: State, events: seq<Event>, src: nat, r: int, p: int, k: nat)
    requires k < |events|
  {
    var s := Exec(s0, events[..k]);
    src < |s.m.src| && s.m.src[src] == p && PublishedSince(s0, events, k, r, p)
  }

  ghost predicate ReportsSource(s0: State, events: seq<Event>, i: nat, src: nat, r: int, p: int) {
    exists k: nat | i < k < |events| :: HeldAt(s0, events, src, r, p, k)
  }

  /** Every slot that has reported reports what its own source held. */
  ghost predicate ReportsSources(s0: State, events: seq<Event>, i: nat, arr: seq<int>, srcs: seq<nat>, out: seq<int>) {
    && |out| <= |arr| == |srcs|
    && forall j | 0 <= j < |out| :: ReportsSource(s0, events, i, srcs[j], arr[j], out[j])
  }

  lemma {:induction false} ReportsLonger(s0: State, events: seq<Event>, before: seq<Event>, i: nat, src: nat, r: int,
                                         p: int)
    requires events != [] && before == events[..|events| - 1] && ReportsSource(s0, before, i, src, r, p)
    requires Publishes(Exec(s0, events), r, p)
    ensures ReportsSource(s0, events, i, src, r, p)
  {
    var k: nat :| i < k < |before| && HeldAt(s0, before, src, r, p, k);
    assert before[..k] == events[..k];
    PublishedLonger(s0, events, before, k, r, p);
    assert HeldAt(s0, events, src, r, p, k);
  }

  lemma {:induction false} ReportsNow(s0: State, events: seq<Event>, before: seq<Event>, i: nat, src: nat, r: int,
                                      p: int)
    requires events != [] && before == events[..|events| - 1] && i < |before|
    requires src < |Exec(s0, before).m.src| && Exec(s0, before).m.src[src] == p && Publishes(Exec(s0, events), r, p)
    ensures ReportsSource(s0, events, i, src, r, p)
  {
    PublishedNow(s0, events, |before|, r, p);
    assert HeldAt(s0, events, src, r, p, |before|);
  }

  lemma {:induction false} PublishedNow(s0: State, events: seq<Event>, k: nat, r: int, p: int)
    requires |events| == k + 1 && Publishes(Exec(s0, events), r, p)
    ensures PublishedSince(s0, events, k, r, p)
  {
    forall j | k < j <= |events|
      ensures Publishes(Exec(s0, events[..j]), r, p)
    {
      assert events[..j] == events;
    }
  }

  /** Nothing more is reported, or what the next source holds. */
  ghost predicate MayReport(m: Mem, srcs: seq<nat>, out: seq<int>, out': seq<int>)
    requires AreSources(m, srcs)
  {
    out' == out || (|out| < |srcs| && out' == out + [m.src[srcs[|out|]]])
  }

  /** A step of `protect_all` adds to its report only the pointer of the next slot's source. */
  lemma {:induction false} ReportGrows(m: Mem, c: int, pc: Pc, arr: seq<int>, srcs: seq<nat>, sp: bool)
    requires Protects(pc, arr, srcs) && |srcs| == |arr| && |pc.out| < |arr| && AreSources(m, srcs)
    ensures MayReport(m, srcs, OutOf(pc), OutOf(Tick(m, c, pc, sp).1))
  {
  }

  /** Client `c` is at `protect_all(srcs)` with the array `arr`, or has just finished it. */
  ghost predicate Following(s: State, c: nat, srcs: seq<nat>, arr: seq<int>) {
    && StateInv(s) && c < |s.pcs| && AreSources(s.m, srcs) && |srcs| == |arr|
    && Standing(s.pcs[c], ProtectAll(srcs), arr)
  }

  lemma {:induction false} CallFollowing(clients: nat, sources: seq<int>, events: seq<Event>, c: nat, i: nat,
                                         srcs: seq<nat>)
    requires SoundRun(InitState(clients, sources), events)
    requires CalledAt(InitState(clients, sources), events, c, i, ProtectAll(srcs))
    ensures var s0 := InitState(clients, sources); Following(Exec(s0, events), c, srcs, ArrayAt(s0, events, c, i))
  {
    CallIsFollowed(clients, sources, events, c, i, ProtectAll(srcs));
    LastEvent(clients, sources, events);
    ClientsConstant(clients, sources, events[..i]);
    ClientsConstant(clients, sources, events);
  }

  lemma {:induction false} SlotsFollowSources(clients: nat, sources: seq<int>, events: seq<Event>, c: nat, i: nat,
                                              srcs: seq<nat>, arr: seq<int>)
    requires SoundRun(InitState(clients, sources), events)
    requires CalledAt(InitState(clients, sources), events, c, i, ProtectAll(srcs))
    requires arr == ArrayAt(InitState(clients, sources), events, c, i)
    ensures ReportsAfter(InitState(clients, sources), events, c, i, srcs, arr)
  {
    var s0 := InitState(clients, sources);
    CallFollowing(clients, sources, events, c, i, srcs);
    if |events| == i + 1 {
      CallReports(s0, events, c, i, srcs, arr);
    } else {
      var before := events[..|events| - 1];
      CalledBefore(s0, events, before, c, i, srcs);
      SlotsFollowSources(clients, sources, before, c, i, srcs, arr);
      CallFollowing(clients, sources, before, c, i, srcs);
      OneMoreEvent(clients, sources, events, before, c, i, srcs, arr);
    }
  }

  /** The array client `c` held before event `i`. */
  ghost function ArrayAt(s0: State, events: seq<Event>, c: nat, i: nat): seq<int>
    requires i <= |events|
  {
    var s := Exec(s0, events[..i]);
    if c < |s.pcs| then ArrayOf(s.pcs[c]) else []
  }

  /** What client `c` reports, if anything, has followed its sources since event `i`. */
  ghost predicate ReportsAfter(s0: State, events: seq<Event>, c: nat, i: nat, srcs: seq<nat>, arr: seq<int>) {
    var s := Exec(s0, events);
    c < |s.pcs| && ReportsSources(s0, events, i, arr, srcs, OutOf(s.pcs[c]))
  }

  lemma {:induction false} CalledBefore(s0: State, events: seq<Event>, before: seq<Event>, c: nat, i: nat,
                                        srcs: seq<nat>)
    requires i + 1 < |events| && before == events[..|events| - 1] && CalledAt(s0, events, c, i, ProtectAll(srcs))
    ensures CalledAt(s0, before, c, i, ProtectAll(srcs)) && ArrayAt(s0, before, c, i) == ArrayAt(s0, events, c, i)
    ensures events[|before|].By? && events[|before|].c == c ==> events[|before|].a.Run?
  {
    assert before[..i] == events[..i];
  }

  lemma {:induction false} OneMoreEvent(clients: nat, sources: seq<int>, events: seq<Event>, before: seq<Event>, c: nat,
                                        i: nat, srcs: seq<nat>, arr: seq<int>)
    requires events != [] && before == events[..|events| - 1] && i < |before|
    requires SoundRun(InitState(clients, sources), events)
    requires events[|before|].By? && events[|before|].c == c ==> events[|before|].a.Run?
    requires var s0 := InitState(clients, sources);
      && Following(Exec(s0, before), c, srcs, arr) && Following(Exec(s0, events), c, srcs, arr)
      && ReportsAfter(s0, before, c, i, srcs, arr)
    ensures ReportsAfter(InitState(clients, sources), events, c, i, srcs, arr)
  {
    LastEvent(clients, sources, events);
    SlotsFollowOn(InitState(clients, sources), events, before, c, i, srcs, arr);
  }

  lemma {:induction false} SlotsFollowOn(s0: State, events: seq<Event>, before: seq<Event>, c: nat, i: nat,
                                         srcs: seq<nat>, arr: seq<int>)
    requires events != [] && before == events[..|events| - 1] && i < |before|
    requires Exec(s0, events) == Apply(Exec(s0, before), events[|before|])
    requires events[|before|].By? && events[|before|].c == c ==> events[|before|].a.Run?
    requires Following(Exec(s0, before), c, srcs, arr) && Following(Exec(s0, events), c, srcs, arr)
    requires ReportsAfter(s0, before, c, i, srcs, arr)
    ensures ReportsAfter(s0, events, c, i, srcs, arr)
  {
    EventReports(Exec(s0, before), Exec(s0, events), events[|before|], c, srcs, arr);
    HeldByStanding(Exec(s0, events).pcs[c], srcs, arr);
    SourcesFollowed(s0, events, before, c, i, srcs, arr, OutOf(Exec(s0, before).pcs[c]));
  }

  lemma {:induction false} HeldByStanding(pc: Pc, srcs: seq<nat>, arr: seq<int>)
    requires Standing(pc, ProtectAll(srcs), arr)
    ensures Held(pc) == arr
  {
  }

  /** Right after the call nothing is reported. */
  lemma {:induction false} CallReportsNothing(s: State, s': State, c: nat, srcs: seq<nat>)
    requires c < |s.pcs| && s' == Apply(s, By(c, ProtectAll(srcs))) && Accepts(s.m, s.pcs[c], ProtectAll(srcs))
    ensures c < |s'.pcs| && OutOf(s'.pcs[c]) == []
  {
  }

  lemma {:induction false} CallReports(s0: State, events: seq<Event>, c: nat, i: nat, srcs: seq<nat>, arr: seq<int>)
    requires |events| == i + 1 && CalledAt(s0, events, c, i, ProtectAll(srcs)) && |srcs| == |arr|
    ensures ReportsAfter(s0, events, c, i, srcs, arr)
  {
    assert events[..|events| - 1] == events[..i];
    CallReportsNothing(Exec(s0, events[..i]), Exec(s0, events), c, srcs);
  }

  /** What the slots report after one more event. */
  lemma {:induction false} SourcesFollowed(s0: State, events: seq<Event>, before: seq<Event>, c: nat, i: nat,
                                           srcs: seq<nat>, arr: seq<int>, out: seq<int>)
    requires events != [] && before == events[..|events| - 1] && i < |before|
    requires StateInv(Exec(s0, events)) && c < |Exec(s0, events).pcs| && Held(Exec(s0, events).pcs[c]) == arr
    requires AreSources(Exec(s0, before).m, srcs) && ReportsSources(s0, before, i, arr, srcs, out)
    requires MayReport(Exec(s0, before).m, srcs, out, OutOf(Exec(s0, events).pcs[c]))
    ensures ReportsSources(s0, events, i, arr, srcs, OutOf(Exec(s0, events).pcs[c]))
  {
    var s' := Exec(s0, events);
    forall j | 0 <= j < |OutOf(s'.pcs[c])|
      ensures ReportsSource(s0, events, i, srcs[j], arr[j], OutOf(s'.pcs[c])[j])
    {
      SlotIsPublished(s', c, j);
      SlotFollowed(s0, events, before, i, srcs, arr, out, OutOf(s'.pcs[c]), j);
    }
  }

  lemma {:induction false} SlotFollowed(s0: State, events: seq<Event>, before: seq<Event>, i: nat, srcs: seq<nat>,
                                        arr: seq<int>, out: seq<int>, out': seq<int>, j: nat)
    requires events != [] && before == events[..|events| - 1] && i < |before|
    requires AreSources(Exec(s0, before).m, srcs) && ReportsSources(s0, before, i, arr, srcs, out)
    requires out' == out || (|out| < |srcs| && out' == out + [Exec(s0, before).m.src[srcs[|out|]]])
    requires j < |out'| && Publishes(Exec(s0, events), arr[j], out'[j])
    ensures ReportsSource(s0, events, i, srcs[j], arr[j], out'[j])
  {
    if j < |out| {
      ReportsLonger(s0, events, before, i, srcs[j], arr[j], out[j]);
    } else {
      ReportsNow(s0, events, before, i, srcs[j], arr[j], out'[j]);
    }
  }

  lemma {:induction false} EventReports(s: State, s': State, e: Event, c: nat, srcs: seq<nat>, arr: seq<int>)
    requires Following(s, c, srcs, arr) && s' == Apply(s, e) && c < |s'.pcs| && (e.By? && e.c == c ==> e.a.Run?)
    ensures MayReport(s.m, srcs, OutOf(s.pcs[c]), OutOf(s'.pcs[c]))
  {
    if e.By? && e.c == c {
      assert ClientOk(s.m, c, s.pcs[c]);
      RunIsTick(s, c, e.a.spurious);
      RunReports(s.m, c, s.pcs[c], arr, srcs, e.a.spurious);
    } else {
      OtherEvent(s, e, c);
    }
  }

  lemma {:induction false} RunReports(m: Mem, c: int, pc: Pc, arr: seq<int>, srcs: seq<nat>, sp: bool)
    requires |m.owner| == |m.recs| && ClientOk(m, c, pc) && AreSources(m, srcs) && |srcs| == |arr|
    requires Standing(pc, ProtectAll(srcs), arr)
    ensures MayReport(m, srcs, OutOf(pc), OutOf(Tick(m, c, pc, sp).1))
  {
    if !pc.Holding? {
      ReportGrows(m, c, pc, arr, srcs, sp);
    }
  }

  /** In every sound run, after `protect_all(sources)` each slot that reports a pointer reports one that the
      source given for that very slot held when it was read again after the call, and that the slot's own
      record has published ever since; and when the call is over every slot reports. */
  lemma {:induction false} SlotsProtectTheirSources(clients: nat, sources: seq<int>, events: seq<Event>, c: nat,
                                                    i: nat, srcs: seq<nat>, j: nat)
    requires SoundRun(InitState(clients, sources), events)
    requires CalledAt(InitState(clients, sources), events, c, i, ProtectAll(srcs))
    requires var s := Exec(InitState(clients, sources), events); c < |s.pcs| && j < |OutOf(s.pcs[c])|
    ensures var s0 := InitState(clients, sources);
      var s, at := Exec(s0, events), Exec(s0, events[..i]);
      && c < |at.pcs| && j < |srcs| == |at.pcs[c].arr| == |Held(s.pcs[c])| && Held(s.pcs[c]) == at.pcs[c].arr
      && (s.pcs[c].Holding? ==> |OutOf(s.pcs[c])| == |srcs|)
      && exists k: nat | i < k < |events| ::
           HeldAt(s0, events, srcs[j], at.pcs[c].arr[j], OutOf(s.pcs[c])[j], k)
  {
    SlotsFollowSources(clients, sources, events, c, i, srcs, ArrayAt(InitState(clients, sources), events, c, i));
    CallIsFollowed(clients, sources, events, c, i, ProtectAll(srcs));
    var s0 := InitState(clients, sources);
    var s, at := Exec(s0, events), Exec(s0, events[..i]);
    assert ReportsSource(s0, events, i, srcs[j], at.pcs[c].arr[j], OutOf(s.pcs[c])[j]);
  }

  /** A slot whose re-check fails retracts the pointer before it publishes another. */
  lemma {:induction false} FailedCheckRetracts(s: State, c: nat, sp: bool, sp': bool)
    requires StateInv(s) && c < |s.pcs| && s.pcs[c].ProtectCheck?
    requires SourceOf(s.m, s.pcs[c].srcs, |s.pcs[c].out|) != s.pcs[c].p
    ensures var s' := RunStep(RunStep(s, c, sp), c, sp');
      && |s.pcs[c].out| < |s.pcs[c].arr| && Protected(s'.m, s.pcs[c].arr[|s.pcs[c].out|]) == 0
      && c < |s'.pcs| && s'.pcs[c].ProtectStore? && s'.pcs[c].p == SourceOf(s.m, s.pcs[c].srcs, |s.pcs[c].out|)
  {
    assert ClientOk(s.m, c, s.pcs[c]);
    assert OwnsAt(s.m, c, s.pcs[c].arr, |s.pcs[c].out|);
  }

  // ---------- Reset and drop ----------

  /** The state with client `c`, whose array protects nothing, about to give it back: nobody else can tell. */
  ghost function AboutToRelease(s: State, c: nat): State
    requires c < |s.pcs| && s.pcs[c].Holding?
  {
    s.(pcs := s.pcs[c := Check(s.pcs[c].n, s.pcs[c].arr)])
  }

  /** What others do does not make a cleared array protect anything. */
  lemma {:induction false} OthersKeepClear(s: State, e: Event, c: nat)
    requires StateInv(s) && LockSound(s, e) && c < |s.pcs| && s.pcs[c].Holding? && !(e.By? && e.c == c)
    requires Clear(s.m, s.pcs[c].arr, |s.pcs[c].arr|)
    ensures Clear(Apply(s, e).m, s.pcs[c].arr, |s.pcs[c].arr|)
  {
    var n, arr := s.pcs[c].n, s.pcs[c].arr;
    var mask := AboutToRelease(s, c);
    assert ClientOk(s.m, c, s.pcs[c]);
    LocalRule(s, c, Check(n, arr));
    SameMemory(s, mask, e, c);
    ApplyKeeps(mask, e);
    OtherEvent(mask, e, c);
    assert ClientOk(Apply(mask, e).m, c, Check(n, arr));
  }

  lemma {:induction false} SameMemory(s: State, mask: State, e: Event, c: nat)
    requires c < |s.pcs| && s.pcs[c].Holding? && mask == AboutToRelease(s, c) && !(e.By? && e.c == c)
    ensures Apply(mask, e).m == Apply(s, e).m && (LockSound(s, e) ==> LockSound(mask, e))
  {
  }

  /** The last write of a reset. */
  lemma {:induction false} LastReset(s: State, c: nat, sp: bool)
    requires StateInv(s) && c < |s.pcs| && s.pcs[c].Reset? && s.pcs[c].i + 1 == |s.pcs[c].arr|
    ensures Clear(RunStep(s, c, sp).m, s.pcs[c].arr, |s.pcs[c].arr|)
  {
    assert ClientOk(s.m, c, s.pcs[c]);
    var n, arr, k := s.pcs[c].n, s.pcs[c].arr, s.pcs[c].i;
    PtrWrite(s.m, c, arr, k, 0);
    PtrWriteKeeps(s.m, RunStep(s, c, sp).m, n, arr, k, []);
  }

  lemma {:induction false} ResetEventClears(s: State, e: Event, c: nat, arr: seq<int>)
    requires StateInv(s) && LockSound(s, e) && c < |s.pcs| && Standing(s.pcs[c], ResetAll, arr)
    requires e.By? && e.c == c ==> e.a.Run?
    requires s.pcs[c].Holding? ==> Clear(s.m, arr, |arr|)
    requires c < |Apply(s, e).pcs| && Apply(s, e).pcs[c].Holding?
    ensures Clear(Apply(s, e).m, arr, |arr|)
  {
    if !(e.By? && e.c == c) {
      OtherEvent(s, e, c);
      OthersKeepClear(s, e, c);
    } else if s.pcs[c].Reset? {
      assert ClientOk(s.m, c, s.pcs[c]);
      LastReset(s, c, e.a.spurious);
    }
  }

  /** In every sound run, an array whose reset is over is the array it was, and protects nothing. */
  lemma {:induction false} ResetClears(clients: nat, sources: seq<int>, events: seq<Event>, c: nat, i: nat)
    requires SoundRun(InitState(clients, sources), events)
    requires CalledAt(InitState(clients, sources), events, c, i, ResetAll)
    requires var s := Exec(InitState(clients, sources), events); c < |s.pcs| && s.pcs[c].Holding?
    ensures var s0 := InitState(clients, sources);
      var s, arr := Exec(s0, events), ArrayOf(Exec(s0, events[..i]).pcs[c]);
      s.pcs[c].arr == arr && s.pcs[c].out == [] && Clear(s.m, arr, |arr|)
  {
    var s0 := InitState(clients, sources);
    var before, e := events[..|events| - 1], events[|events| - 1];
    LastEvent(clients, sources, events);
    CallIsFollowed(clients, sources, events, c, i, ResetAll);
    if |events| > i + 1 {
      assert before[..i] == events[..i];
      CallIsFollowed(clients, sources, before, c, i, ResetAll);
      if Exec(s0, before).pcs[c].Holding? {
        ResetClears(clients, sources, before, c, i);
      }
      ResetEventClears(Exec(s0, before), e, c, ArrayOf(Exec(s0, events[..i]).pcs[c]));
    }
  }

  /** Event `k` put the records of `arr`, in their order, in front of the available list. */
  ghost predicate GivenBackAt(s0: State, events: seq<Event>, arr: seq<int>, k: nat)
    requires k < |events|
  {
    var m := Exec(s0, events[..k + 1]).m;
    && (forall j: nat | j < |arr| :: ChaseFree(m, j) == arr[j])
    && (forall j: nat | j < |arr| :: Protected(m, arr[j]) == 0)
  }

  lemma {:induction false} PushReturns(s: State, c: nat, sp: bool)
    requires StateInv(s) && c < |s.pcs| && s.pcs[c].PushCas? && StateInv(RunStep(s, c, sp))
    requires c < |RunStep(s, c, sp).pcs| && RunStep(s, c, sp).pcs[c].Idle?
    ensures var m := RunStep(s, c, sp).m;
      && (forall j: nat | j < |s.pcs[c].arr| :: ChaseFree(m, j) == s.pcs[c].arr[j])
      && (forall j: nat | j < |s.pcs[c].arr| :: Protected(m, s.pcs[c].arr[j]) == 0)
  {
    var m, arr := RunStep(s, c, sp).m, s.pcs[c].arr;
    assert m.free == arr + s.m.free;
    forall j: nat | j < |arr|
      ensures ChaseFree(m, j) == arr[j] && Protected(m, arr[j]) == 0
    {
      ChaseIsFree(m, j);
      assert FreeAt(m, j);
    }
  }

  /** In every sound run, a client that is idle again after dropping its array has put exactly that array, its
      records in order and all unprotected, in front of the available list. */
  lemma {:induction false} DropReturns(clients: nat, sources: seq<int>, events: seq<Event>, c: nat, i: nat)
    requires SoundRun(InitState(clients, sources), events)
    requires CalledAt(InitState(clients, sources), events, c, i, Drop)
    requires var s := Exec(InitState(clients, sources), events); c < |s.pcs| && s.pcs[c].Idle?
    ensures var s0 := InitState(clients, sources);
      exists k: nat | i < k < |events| :: GivenBackAt(s0, events, ArrayOf(Exec(s0, events[..i]).pcs[c]), k)
  {
    var s0 := InitState(clients, sources);
    var before, e := events[..|events| - 1], events[|events| - 1];
    LastEvent(clients, sources, events);
    if |events| > i + 1 {
      assert before[..i] == events[..i];
      CallIsFollowed(clients, sources, before, c, i, Drop);
      var arr := ArrayOf(Exec(s0, events[..i]).pcs[c]);
      if Exec(s0, before).pcs[c].Idle? {
        DropReturns(clients, sources, before, c, i);
        var k: nat :| i < k < |before| && GivenBackAt(s0, before, arr, k);
        assert before[..k + 1] == events[..k + 1];
        assert GivenBackAt(s0, events, arr, k);
      } else {
        DropsNow(s0, events, before, c, arr);
      }
    }
  }

  lemma {:induction false} DropsNow(s0: State, events: seq<Event>, before: seq<Event>, c: nat, arr: seq<int>)
    requires events != [] && before == events[..|events| - 1]
    requires StateInv(Exec(s0, before)) && StateInv(Exec(s0, events))
    requires c < |Exec(s0, before).pcs| == |Exec(s0, events).pcs|
    requires Standing(Exec(s0, before).pcs[c], Drop, arr) && !Exec(s0, before).pcs[c].Idle?
    requires events[|before|].By? && events[|before|].c == c ==> events[|before|].a.Run?
    requires Exec(s0, events).pcs[c].Idle?
    ensures GivenBackAt(s0, events, arr, |before|)
  {
    var e := events[|before|];
    OnlyPushEnds(Exec(s0, before), e, c, arr);
    PushReturns(Exec(s0, before), c, e.a.spurious);
    assert events[..|before| + 1] == events;
  }

  lemma {:induction false} OnlyPushEnds(s: State, e: Event, c: nat, arr: seq<int>)
    requires c < |s.pcs| && Standing(s.pcs[c], Drop, arr) && !s.pcs[c].Idle?
    requires e.By? && e.c == c ==> e.a.Run?
    requires c < |Apply(s, e).pcs| && Apply(s, e).pcs[c].Idle?
    ensures e.By? && e.c == c && e.a.Run? && s.pcs[c].PushCas? && s.pcs[c].arr == arr
  {
    if !(e.By? && e.c == c) {
      OtherEvent(s, e, c);
    }
  }
}
