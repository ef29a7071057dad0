/** A client left alone takes as many records as it needs from the available list, from its front, and creates
    only what is missing. */
module HazardReuse {
  import opened Lists
  import opened HazardMachine
  import opened HazardInvariant
  import opened HazardSteps
  import opened HazardTheorems
  import opened HazardCalls
  import opened HazardProgress

  /** The part of the available list that a call for `n` records takes. */
  ghost function Reused(free: seq<int>, n: nat): seq<int> {
    if n <= |free| then free[..n] else free
  }

  /** How far a client that acquires `n` records alone has come, from an available list `free` and `count`
      records in all. */
  ghost predicate OnTheWay(m: Mem, pc: Pc, free: seq<int>, count: nat, n: nat) {
    var reused := Reused(free, n);
    match pc
    case LoadAvail(_) => m.free == free && |m.recs| == count
    case FetchOr(_, _) => m.free == free && |m.recs| == count
    case Traverse(_, _) => m.free == free && |m.recs| == count
    case Unlock(_, taken, _) => m.free == free && |m.recs| == count && taken == reused
    case NullTail(_, taken) => taken == reused && |m.recs| == count
    case Collect(_, arr, _, chain) =>
      (chain == reused || (chain == [] && |reused| <= |arr|)) && Built(m, arr, reused, count)
    case NewRec(_, arr, rec, _) => reused <= arr && Built(m, arr + [rec], reused, count)
    case LinkNew(_, arr, rec) => reused <= arr && Built(m, arr + [rec], reused, count)
    case Holding(_, arr, _) => reused <= arr && Built(m, arr, reused, count)
    case _ => false
  }

  /** The array is that part so far, or that part and new records. */
  ghost predicate Built(m: Mem, arr: seq<int>, reused: seq<int>, count: nat) {
    if |arr| <= |reused| then arr <= reused && |m.recs| == count
    else reused <= arr && |m.recs| == count + |arr| - |reused|
  }

  ghost predicate Goes(s: State, c: nat, free: seq<int>, count: nat, n: nat) {
    && StateInv(s) && CanRun(s, c) && Acquiring(s.pcs[c], n) && OnTheWay(s.m, s.pcs[c], free, count, n)
  }

  ghost predicate Went(s: State, c: nat, free: seq<int>, count: nat, n: nat) {
    var s' := RunStep(s, c, false);
    c < |s'.pcs| && OnTheWay(s'.m, s'.pcs[c], free, count, n)
  }

  lemma {:induction false} TakingGoes(s: State, c: nat, free: seq<int>, count: nat, n: nat)
    requires Goes(s, c, free, count, n) && (s.pcs[c].LoadAvail? || s.pcs[c].FetchOr? || s.pcs[c].Traverse?)
    ensures Went(s, c, free, count, n)
  {
    assert ClientOk(s.m, c, s.pcs[c]);
    if s.pcs[c].Traverse? {
      TakingLink(s.m, n, s.pcs[c].taken);
      if After(s.m.free, |s.pcs[c].taken| - 1) == NULL || |s.pcs[c].taken| >= n {
        TakenIsReused(s.m, n, s.pcs[c].taken);
      }
    } else if s.m.free != [] {
      assert FreeAt(s.m, 0);
    }
  }

  /** A traversal that stops has what the call takes. */
  lemma {:induction false} TakenIsReused(m: Mem, n: nat, taken: seq<int>)
    requires MemOk(m) && Taking(m, n, taken) && (After(m.free, |taken| - 1) == NULL || |taken| >= n)
    ensures taken == Reused(m.free, n)
  {
    if |taken| < |m.free| {
      assert FreeAt(m, |taken|);
    }
  }

  lemma {:induction false} UnlockGoes(s: State, c: nat, free: seq<int>, count: nat, n: nat)
    requires Goes(s, c, free, count, n) && (s.pcs[c].Unlock? || s.pcs[c].NullTail?)
    ensures Went(s, c, free, count, n)
  {
  }

  lemma {:induction false} CollectGoes(s: State, c: nat, free: seq<int>, count: nat, n: nat)
    requires Goes(s, c, free, count, n) && s.pcs[c].Collect?
    ensures Went(s, c, free, count, n)
  {
    assert ClientOk(s.m, c, s.pcs[c]);
    if |s.pcs[c].arr| < |s.pcs[c].chain| {
      CollectOld(s, c, free, count, n);
    } else {
      CollectNew(s, c, free, count, n);
    }
  }

  lemma {:induction false} CollectOld(s: State, c: nat, free: seq<int>, count: nat, n: nat)
    requires Goes(s, c, free, count, n) && s.pcs[c].Collect? && |s.pcs[c].arr| < |s.pcs[c].chain|
    requires PcOk(s.m, s.pcs[c])
    ensures Went(s, c, free, count, n)
  {
    var arr, chain := s.pcs[c].arr, s.pcs[c].chain;
    assert arr + [chain[|arr|]] == chain[..|arr| + 1];
  }

  lemma {:induction false} CollectNew(s: State, c: nat, free: seq<int>, count: nat, n: nat)
    requires Goes(s, c, free, count, n) && s.pcs[c].Collect? && |s.pcs[c].chain| <= |s.pcs[c].arr|
    requires PcOk(s.m, s.pcs[c])
    ensures Went(s, c, free, count, n)
  {
  }

  lemma {:induction false} NewGoes(s: State, c: nat, free: seq<int>, count: nat, n: nat)
    requires Goes(s, c, free, count, n) && (s.pcs[c].NewRec? || s.pcs[c].LinkNew?)
    ensures Went(s, c, free, count, n)
  {
    assert ClientOk(s.m, c, s.pcs[c]);
  }

  lemma {:induction false} StepGoes(s: State, c: nat, free: seq<int>, count: nat, n: nat)
    requires Goes(s, c, free, count, n)
    ensures Went(s, c, free, count, n)
  {
    var pc := s.pcs[c];
    if pc.LoadAvail? || pc.FetchOr? || pc.Traverse? {
      TakingGoes(s, c, free, count, n);
    } else if pc.Unlock? || pc.NullTail? {
      UnlockGoes(s, c, free, count, n);
    } else if pc.Collect? {
      CollectGoes(s, c, free, count, n);
    } else {
      NewGoes(s, c, free, count, n);
    }
  }

  /** The state after the call and `k` steps. */
  ghost function AfterCall(s0: State, events: seq<Event>, c: nat, n: nat, k: nat): State {
    Exec(s0, events + CallAlone(c, Acquire(n), k))
  }

  lemma {:induction false} CallSnoc(s0: State, events: seq<Event>, c: nat, n: nat, k: nat)
    ensures AfterCall(s0, events, c, n, k + 1) == RunStep(AfterCall(s0, events, c, n, k), c, false)
    ensures SoundRun(s0, events + CallAlone(c, Acquire(n), k + 1))
      ==> SoundRun(s0, events + CallAlone(c, Acquire(n), k))
  {
    var all := events + CallAlone(c, Acquire(n), k + 1);
    assert all[..|all| - 1] == events + CallAlone(c, Acquire(n), k);
    assert all[|all| - 1] == By(c, Run(false));
  }

  /** Left alone with the lock bit free, the call keeps to its way until it is answered. */
  lemma {:induction false} KeepsToIt(clients: nat, sources: seq<int>, events: seq<Event>, c: nat, n: nat, k: nat)
    requires n >= 1 && SoundRun(InitState(clients, sources), events + CallAlone(c, Acquire(n), k))
    requires var s := Exec(InitState(clients, sources), events); c < |s.pcs| && s.m.holder == NULL && s.pcs[c].Idle?
    ensures var s0 := InitState(clients, sources);
      var s, s' := Exec(s0, events), AfterCall(s0, events, c, n, k);
      && SoundRun(s0, events) && StateInv(s') && CanRun(s', c)
      && (Acquiring(s'.pcs[c], n) || s'.pcs[c].Holding?) && OnTheWay(s'.m, s'.pcs[c], s.m.free, |s.m.recs|, n)
  {
    var s0 := InitState(clients, sources);
    InitInv(clients, sources);
    var all := events + CallAlone(c, Acquire(n), k);
    ExecKeeps(s0, all);
    if k == 0 {
      assert all[..|all| - 1] == events;
      assert all[|all| - 1] == By(c, Acquire(n));
    } else {
      CallSnoc(s0, events, c, n, k - 1);
      KeepsToIt(clients, sources, events, c, n, k - 1);
      var s1 := AfterCall(s0, events, c, n, k - 1);
      if s1.pcs[c].Holding? {
        HoldingStays(s1, c);
      } else {
        StepGoes(s1, c, Exec(s0, events).m.free, |Exec(s0, events).m.recs|, n);
        StepCloser(s1, c);
        NotPanicked(AfterCall(s0, events, c, n, k), c);
        RunIsTick(s1, c, false);
        AcquireGoesOn(s1.m, c, s1.pcs[c], n, false);
      }
    }
  }

  lemma {:induction false} HoldingStays(s: State, c: nat)
    requires c < |s.pcs| && s.pcs[c].Holding?
    ensures RunStep(s, c, false) == s
  {
    assert s.pcs[c := s.pcs[c]] == s.pcs;
  }

  /** The array acquired alone begins with the first available records, as many as there are and are needed; the
      others are new, and no more were created. */
  lemma {:induction false} AcquireReuses(clients: nat, sources: seq<int>, events: seq<Event>, c: nat, n: nat)
    returns (k: nat)
    requires SoundRun(InitState(clients, sources), events) && n >= 1
    requires var s := Exec(InitState(clients, sources), events); c < |s.pcs| && s.m.holder == NULL && s.pcs[c].Idle?
    ensures var s0 := InitState(clients, sources);
      var s, s' := Exec(s0, events), AfterCall(s0, events, c, n, k);
      && c < |s'.pcs| && s'.pcs[c].Holding? && |s'.pcs[c].arr| == n
      && exists l: nat | l <= n ::
           && FirstAvailable(s.m, s'.pcs[c].arr, l) && (l < n ==> ChaseFree(s.m, l) == NULL)
           && |s'.m.recs| == |s.m.recs| + n - l
  {
    k := AcquireCompletes(clients, sources, events, c, n);
    var s0 := InitState(clients, sources);
    KeepsToIt(clients, sources, events, c, n, k);
    var s, s' := Exec(s0, events), AfterCall(s0, events, c, n, k);
    InitInv(clients, sources);
    ExecKeeps(s0, events);
    ReusedIsFirst(s.m, s'.m, s'.pcs[c].arr, n);
  }

  lemma {:induction false} ReusedIsFirst(m: Mem, m': Mem, arr: seq<int>, n: nat)
    requires MemOk(m) && |arr| == n && Reused(m.free, n) <= arr && Built(m', arr, Reused(m.free, n), |m.recs|)
    ensures exists l: nat | l <= n ::
      FirstAvailable(m, arr, l) && (l < n ==> ChaseFree(m, l) == NULL) && |m'.recs| == |m.recs| + n - l
  {
    var reused := Reused(m.free, n);
    var l := |reused|;
    forall j: nat | j < l
      ensures ChaseFree(m, j) == arr[j]
    {
      ChaseIsFree(m, j);
    }
    ChaseIsFree(m, l);
    assert FirstAvailable(m, arr, l);
  }

  /** The first `l` records of the available list are the first `l` of the array. */
  ghost predicate FirstAvailable(m: Mem, arr: seq<int>, l: nat) {
    l <= |arr| && forall j: nat | j < l :: ChaseFree(m, j) == arr[j]
  }
}
