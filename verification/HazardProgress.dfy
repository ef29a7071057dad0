/** A client that runs alone, with the lock bit in its reach, gets its answer: the measure is how far it is from
    its next array, or from having given the last one back. */
module HazardProgress {
  import opened Lists
  import opened HazardMachine
  import opened HazardInvariant
  import opened HazardSteps
  import opened HazardTheorems
  import opened HazardCalls

  /** Nobody else has the lock bit, and a client about to set it does so with the head it is going to find. */
  ghost predicate CanRun(s: State, c: nat) {
    && c < |s.pcs| && (s.m.holder == NULL || s.m.holder == c)
    && (s.pcs[c].FetchOr? ==> s.pcs[c].seen == s.m.avail)
  }

  /** What slot |out| would read. */
  ghost function NextSource(m: Mem, pc: Pc): int
    requires pc.ProtectLoad? || pc.ProtectStore? || pc.ProtectCheck? || pc.ProtectReset?
  {
    SourceOf(m, pc.srcs, |pc.out|)
  }

  ghost function SlotWay(m: Mem, pc: Pc): nat
    requires pc.ProtectLoad? || pc.ProtectStore? || pc.ProtectCheck? || pc.ProtectReset?
  {
    match pc
    case ProtectCheck(_, _, _, _, p) => if p == NextSource(m, pc) then 1 else 6
    case ProtectStore(_, _, _, _, p) => if p == NextSource(m, pc) then 2 else 7
    case ProtectReset(_, _, _, _, p) => if p == NextSource(m, pc) then 3 else 8
    case ProtectLoad(_, _, _, _) => 4
  }

  ghost function Left(n: nat, done: nat): nat { if done <= n then n - done else 0 }

  /** The steps left, at most. */
  ghost function Way(m: Mem, pc: Pc): nat {
    match pc
    case Idle => 0
    case Holding(_, _, _) => 0
    case Panicked => 0
    case LoadAvail(n) => 5 * n + 8
    case FetchOr(n, _) => 5 * n + 7
    case Traverse(n, taken) => 4 * n + 6 + Left(n, |taken|)
    case Unlock(n, _, _) => 4 * n + 5
    case NullTail(n, _) => 4 * n + 4
    case Collect(n, arr, _, _) => 4 * Left(n, |arr|) + 3
    case NewRec(n, arr, _, top) => 4 * Left(n, |arr|) + (if top == m.allHead then 1 else 2)
    case LinkNew(n, arr, _) => 4 * Left(n, |arr|)
    case ProtectLoad(_, arr, _, out) => 9 * Left(|arr|, |out|) + SlotWay(m, pc)
    case ProtectStore(_, arr, _, out, _) => 9 * Left(|arr|, |out|) + SlotWay(m, pc)
    case ProtectCheck(_, arr, _, out, _) => 9 * Left(|arr|, |out|) + SlotWay(m, pc)
    case ProtectReset(_, arr, _, out, _) => 9 * Left(|arr|, |out|) + SlotWay(m, pc)
    case Reset(_, arr, i, _) => 10 + Left(|arr|, i)
    case Check(_, _) => 9
    case PushCas(_, _, top) => if m.avail.ptr == top then 1 else 6
    case PushStore(_, _, top) => if m.avail.ptr == top then 2 else 7
    case PushLoad(_, _) => 3
  }

  /** The client has an answer. */
  ghost predicate Done(pc: Pc) { pc.Idle? || pc.Holding? }

  ghost predicate Closer(s: State, c: nat) {
    var s' := RunStep(s, c, false);
    LockSound(s, By(c, Run(false))) && CanRun(s', c) && Way(s'.m, s'.pcs[c]) < Way(s.m, s.pcs[c])
  }

  lemma {:induction false} AcquireCloser(s: State, c: nat)
    requires StateInv(s) && CanRun(s, c)
    requires s.pcs[c].LoadAvail? || s.pcs[c].FetchOr? || s.pcs[c].Traverse? || s.pcs[c].Unlock? || s.pcs[c].NullTail?
    ensures Closer(s, c)
  {
    assert ClientOk(s.m, c, s.pcs[c]);
  }

  lemma {:induction false} CollectCloser(s: State, c: nat)
    requires StateInv(s) && CanRun(s, c) && (s.pcs[c].Collect? || s.pcs[c].NewRec? || s.pcs[c].LinkNew?)
    ensures Closer(s, c)
  {
    assert ClientOk(s.m, c, s.pcs[c]);
  }

  lemma {:induction false} SlotWriteCloser(s: State, c: nat)
    requires StateInv(s) && CanRun(s, c) && (s.pcs[c].ProtectStore? || s.pcs[c].ProtectReset?)
    ensures Closer(s, c)
  {
    assert ClientOk(s.m, c, s.pcs[c]);
  }

  lemma {:induction false} SlotReadCloser(s: State, c: nat)
    requires StateInv(s) && CanRun(s, c) && (s.pcs[c].ProtectLoad? || s.pcs[c].ProtectCheck?)
    ensures Closer(s, c)
  {
    assert ClientOk(s.m, c, s.pcs[c]);
  }

  lemma {:induction false} ResetCloser(s: State, c: nat)
    requires StateInv(s) && CanRun(s, c) && (s.pcs[c].Reset? || s.pcs[c].Check?)
    ensures Closer(s, c)
  {
    assert ClientOk(s.m, c, s.pcs[c]);
  }

  lemma {:induction false} PushCloser(s: State, c: nat)
    requires StateInv(s) && CanRun(s, c) && (s.pcs[c].PushLoad? || s.pcs[c].PushStore? || s.pcs[c].PushCas?)
    ensures Closer(s, c)
  {
    assert ClientOk(s.m, c, s.pcs[c]);
  }

  lemma {:induction false} StepCloser(s: State, c: nat)
    requires StateInv(s) && CanRun(s, c) && !Done(s.pcs[c])
    ensures Closer(s, c)
  {
    NotPanicked(s, c);
    var pc := s.pcs[c];
    if pc.LoadAvail? || pc.FetchOr? || pc.Traverse? || pc.Unlock? || pc.NullTail? {
      AcquireCloser(s, c);
    } else if pc.Collect? || pc.NewRec? || pc.LinkNew? {
      CollectCloser(s, c);
    } else if pc.ProtectLoad? || pc.ProtectCheck? {
      SlotReadCloser(s, c);
    } else if pc.ProtectStore? || pc.ProtectReset? {
      SlotWriteCloser(s, c);
    } else if pc.Reset? || pc.Check? {
      ResetCloser(s, c);
    } else {
      PushCloser(s, c);
    }
  }

  /** `k` steps of client `c`. */
  ghost function Alone(c: nat, k: nat): seq<Event> {
    seq(k, _ => By(c, Run(false)))
  }

  lemma {:induction false} AloneSnoc(s0: State, events: seq<Event>, c: nat, k: nat)
    ensures var all := events + Alone(c, k + 1);
      && Exec(s0, all) == RunStep(Exec(s0, events + Alone(c, k)), c, false)
      && (SoundRun(s0, events + Alone(c, k)) && LockSound(Exec(s0, events + Alone(c, k)), By(c, Run(false)))
          ==> SoundRun(s0, all))
  {
    var all := events + Alone(c, k + 1);
    assert all[..|all| - 1] == events + Alone(c, k);
    assert all[|all| - 1] == By(c, Run(false));
  }

  ghost predicate DoneAfter(s0: State, events: seq<Event>, c: nat) {
    SoundRun(s0, events) && c < |Exec(s0, events).pcs| && Done(Exec(s0, events).pcs[c])
  }

  /** From every state of a sound run in which no other client has the lock bit, a client left alone gets the
      answer to the call it is in, and the run stays sound. */
  lemma {:induction false} AnswerComes(clients: nat, sources: seq<int>, events: seq<Event>, c: nat, k0: nat)
    returns (k: nat)
    requires SoundRun(InitState(clients, sources), events + Alone(c, k0))
    requires CanRun(Exec(InitState(clients, sources), events + Alone(c, k0)), c)
    ensures DoneAfter(InitState(clients, sources), events + Alone(c, k), c)
    decreases WayAt(InitState(clients, sources), events + Alone(c, k0), c)
  {
    var s0 := InitState(clients, sources);
    var s := Exec(s0, events + Alone(c, k0));
    if Done(s.pcs[c]) {
      k := k0;
    } else {
      InitInv(clients, sources);
      ExecKeeps(s0, events + Alone(c, k0));
      StepCloser(s, c);
      AloneSnoc(s0, events, c, k0);
      k := AnswerComes(clients, sources, events, c, k0 + 1);
    }
  }

  ghost function WayAt(s0: State, events: seq<Event>, c: nat): nat {
    var s := Exec(s0, events);
    if c < |s.pcs| then Way(s.m, s.pcs[c]) else 0
  }

  /** The call of client `c`, and then `k` of its steps. */
  ghost function CallAlone(c: nat, a: Action, k: nat): seq<Event> { [By(c, a)] + Alone(c, k) }

  lemma {:induction false} CallRuns(clients: nat, sources: seq<int>, events: seq<Event>, c: nat, a: Action)
    returns (k: nat)
    requires SoundRun(InitState(clients, sources), events)
    requires var s := Exec(InitState(clients, sources), events);
      c < |s.pcs| && s.m.holder == NULL && Accepts(s.m, s.pcs[c], a)
    ensures var s0, all := InitState(clients, sources), events + CallAlone(c, a, k);
      DoneAfter(s0, all, c) && CalledAt(s0, all, c, |events|, a) && all[..|events|] == events
  {
    var s0, called := InitState(clients, sources), events + [By(c, a)];
    assert called[..|called| - 1] == events;
    CallCanRun(s0, events, called, c, a);
    assert called + Alone(c, 0) == called;
    k := AnswerComes(clients, sources, called, c, 0);
    assert events + CallAlone(c, a, k) == called + Alone(c, k);
    CallIsAt(s0, events, events + CallAlone(c, a, k), c, a, k);
  }

  lemma {:induction false} CallCanRun(s0: State, events: seq<Event>, called: seq<Event>, c: nat, a: Action)
    requires called != [] && called[..|called| - 1] == events && called[|called| - 1] == By(c, a)
    requires SoundRun(s0, events)
    requires var s := Exec(s0, events); c < |s.pcs| && s.m.holder == NULL && Accepts(s.m, s.pcs[c], a)
    ensures SoundRun(s0, called) && CanRun(Exec(s0, called), c)
  {
  }

  lemma {:induction false} CallIsAt(s0: State, events: seq<Event>, all: seq<Event>, c: nat, a: Action, k: nat)
    requires all == events + CallAlone(c, a, k)
    requires var s := Exec(s0, events); c < |s.pcs| && Accepts(s.m, s.pcs[c], a)
    ensures CalledAt(s0, all, c, |events|, a) && all[..|events|] == events
  {
    assert all[..|events|] == events;
  }

  lemma {:induction false} AloneKeepsSources(s0: State, events: seq<Event>, steps: seq<Event>)
    requires forall i | 0 <= i < |steps| :: steps[i].By?
    ensures Exec(s0, events + steps).m.src == Exec(s0, events).m.src
  {
    if steps == [] {
      assert events + steps == events;
    } else {
      var before := steps[..|steps| - 1];
      assert (events + steps)[..|events + steps| - 1] == events + before;
      AloneKeepsSources(s0, events, before);
      SourcesStay(Exec(s0, events + before), steps[|steps| - 1]);
    }
  }

  /** A client left alone, with the lock bit free, that asks for n records ends up with n. */
  lemma {:induction false} AcquireCompletes(clients: nat, sources: seq<int>, events: seq<Event>, c: nat, n: nat)
    returns (k: nat)
    requires SoundRun(InitState(clients, sources), events) && n >= 1
    requires var s := Exec(InitState(clients, sources), events); c < |s.pcs| && s.m.holder == NULL && s.pcs[c].Idle?
    ensures var s0 := InitState(clients, sources);
      var s := Exec(s0, events + CallAlone(c, Acquire(n), k));
      && SoundRun(s0, events + CallAlone(c, Acquire(n), k))
      && c < |s.pcs| && s.pcs[c].Holding? && |s.pcs[c].arr| == n
  {
    k := CallRuns(clients, sources, events, c, Acquire(n));
    AcquireYieldsMany(clients, sources, events + CallAlone(c, Acquire(n), k), c, |events|, n);
  }

  /** Client `c` holds an array whose slot j reports, and publishes, what source `srcs[j]` holds. */
  ghost predicate SlotsHold(s: State, c: nat, srcs: seq<nat>) {
    && c < |s.pcs| && s.pcs[c].Holding? && |s.pcs[c].out| == |srcs| == |s.pcs[c].arr|
    && (forall j | 0 <= j < |srcs| :: srcs[j] < |s.m.src| && s.pcs[c].out[j] == s.m.src[srcs[j]])
    && (forall j | 0 <= j < |srcs| :: Protected(s.m, s.pcs[c].arr[j]) == s.pcs[c].out[j])
  }

  /** One that protects ends up with every slot reporting what its source holds. */
  lemma {:induction false} ProtectCompletes(clients: nat, sources: seq<int>, events: seq<Event>, c: nat, srcs: seq<nat>)
    returns (k: nat)
    requires SoundRun(InitState(clients, sources), events)
    requires var s := Exec(InitState(clients, sources), events);
      c < |s.pcs| && s.m.holder == NULL && Accepts(s.m, s.pcs[c], ProtectAll(srcs))
    ensures var s := Exec(InitState(clients, sources), events + CallAlone(c, ProtectAll(srcs), k));
      SlotsHold(s, c, srcs)
  {
    k := CallRuns(clients, sources, events, c, ProtectAll(srcs));
    ProtectEnds(clients, sources, events, CallAlone(c, ProtectAll(srcs), k), c, srcs);
  }

  lemma {:induction false} ProtectEnds(clients: nat, sources: seq<int>, events: seq<Event>, steps: seq<Event>, c: nat,
                                       srcs: seq<nat>)
    requires forall i | 0 <= i < |steps| :: steps[i].By?
    requires DoneAfter(InitState(clients, sources), events + steps, c)
    requires CalledAt(InitState(clients, sources), events + steps, c, |events|, ProtectAll(srcs))
    ensures SlotsHold(Exec(InitState(clients, sources), events + steps), c, srcs)
  {
    var s0, all := InitState(clients, sources), events + steps;
    CallIsFollowed(clients, sources, all, c, |events|, ProtectAll(srcs));
    SlotsFollowSources(clients, sources, all, c, |events|, srcs, ArrayAt(s0, all, c, |events|));
    InitInv(clients, sources);
    ExecKeeps(s0, all);
    SlotsHoldSources(s0, events, steps, all, c, srcs);
  }

  /** With nobody else running, sources are what they were when the slots read them. */
  lemma {:induction false} SlotsHoldSources(s0: State, events: seq<Event>, steps: seq<Event>, all: seq<Event>, c: nat,
                                            srcs: seq<nat>)
    requires all == events + steps && forall i | 0 <= i < |steps| :: steps[i].By?
    requires StateInv(Exec(s0, all)) && c < |Exec(s0, all).pcs| && Exec(s0, all).pcs[c].Holding?
    requires var pc := Exec(s0, all).pcs[c];
      |pc.out| == |srcs| && ReportsSources(s0, all, |events|, pc.arr, srcs, pc.out)
    ensures SlotsHold(Exec(s0, all), c, srcs)
  {
    var s := Exec(s0, all);
    forall j | 0 <= j < |srcs|
      ensures srcs[j] < |s.m.src| && s.pcs[c].out[j] == s.m.src[srcs[j]]
      ensures Protected(s.m, s.pcs[c].arr[j]) == s.pcs[c].out[j]
    {
      SlotIsPublished(s, c, j);
      AloneReports(s0, events, steps, srcs[j], s.pcs[c].arr[j], s.pcs[c].out[j]);
    }
  }

  lemma {:induction false} AloneReports(s0: State, events: seq<Event>, steps: seq<Event>, src: nat, r: int, p: int)
    requires forall i | 0 <= i < |steps| :: steps[i].By?
    requires ReportsSource(s0, events + steps, |events|, src, r, p)
    ensures src < |Exec(s0, events + steps).m.src| && Exec(s0, events + steps).m.src[src] == p
  {
    var all := events + steps;
    var k: nat :| |events| < k < |all| && HeldAt(s0, all, src, r, p, k);
    assert all[..k] == events + steps[..k - |events|];
    AloneKeepsSources(s0, events, steps[..k - |events|]);
    AloneKeepsSources(s0, events, steps);
  }

  /** One that resets ends up protecting nothing, and one that drops gives its array back. */
  lemma {:induction false} ResetCompletes(clients: nat, sources: seq<int>, events: seq<Event>, c: nat) returns (k: nat)
    requires SoundRun(InitState(clients, sources), events)
    requires var s := Exec(InitState(clients, sources), events); c < |s.pcs| && s.m.holder == NULL && s.pcs[c].Holding?
    ensures var s0 := InitState(clients, sources);
      var at, s := Exec(s0, events), Exec(s0, events + CallAlone(c, ResetAll, k));
      c < |s.pcs| && s.pcs[c].Holding? && s.pcs[c].arr == at.pcs[c].arr && Clear(s.m, at.pcs[c].arr, |at.pcs[c].arr|)
  {
    k := CallRuns(clients, sources, events, c, ResetAll);
    var all := events + CallAlone(c, ResetAll, k);
    CallIsFollowed(clients, sources, all, c, |events|, ResetAll);
    ResetClears(clients, sources, all, c, |events|);
  }

  lemma {:induction false} DropCompletes(clients: nat, sources: seq<int>, events: seq<Event>, c: nat) returns (k: nat)
    requires SoundRun(InitState(clients, sources), events)
    requires var s := Exec(InitState(clients, sources), events); c < |s.pcs| && s.m.holder == NULL && s.pcs[c].Holding?
    ensures var s0, all := InitState(clients, sources), events + CallAlone(c, Drop, k);
      && c < |Exec(s0, all).pcs| && Exec(s0, all).pcs[c].Idle?
      && exists l: nat | |events| < l < |all| :: GivenBackAt(s0, all, Exec(s0, events).pcs[c].arr, l)
  {
    k := CallRuns(clients, sources, events, c, Drop);
    var all := events + CallAlone(c, Drop, k);
    CallIsFollowed(clients, sources, all, c, |events|, Drop);
    DropReturns(clients, sources, all, c, |events|);
  }
}
