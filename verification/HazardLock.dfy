/**
  Why the ownership theorems need their hypothesis.  `try_acquire_available` dereferences the pointer
  it loaded before `fetch_or`, although the one that `fetch_or` returned is the head it locked.  The
  locked section keeps the records partitioned exactly when the two are equal, however other clients
  interfere, and runs in which they differ exist.
 */
module HazardLock {
  import opened Lists
  import opened HazardMachine
  import opened HazardInvariant
  import opened HazardSteps
  import opened HazardTheorems

  ghost predicate Safe(s: State) {
    Partition(s) && forall c | 0 <= c < |s.pcs| :: !s.pcs[c].Panicked?
  }

  lemma {:induction false} InvIsSafe(s: State)
    requires StateInv(s)
    ensures Safe(s)
  {
    InvIsPartition(s);
    forall c | 0 <= c < |s.pcs|
      ensures !s.pcs[c].Panicked?
    {
      assert ClientOk(s.m, c, s.pcs[c]);
    }
  }

  /** Client `c` has the lock bit throughout the events, whatever the others do meanwhile. */
  ghost predicate InSection(s: State, c: nat, events: seq<Event>) {
    forall k | 0 <= k <= |events| :: LockedBy(Exec(s, events[..k]), c)
  }

  ghost predicate LockedBy(s: State, c: nat) {
    c < |s.pcs| && HasLock(s.pcs[c])
  }

  // ---------- The locked section as the other clients see it ----------

  /** The state with client `c` about to unlock the list without having taken anything: nobody else can
      tell the difference, and whatever `c` has taken instead, this state stays in order. */
  ghost function Masked(s: State, c: nat): State
    requires LockedBy(s, c)
  {
    s.(pcs := s.pcs[c := Unlock(s.pcs[c].n, [], s.m.avail.ptr)])
  }

  /** What the winner has taken is the segment of the free list that starts at position `j`. */
  ghost predicate Segment(pc: Pc, free: seq<int>, j: nat)
    requires HasLock(pc)
  {
    && j + |pc.taken| <= |free| && pc.taken == free[j..j + |pc.taken|]
    && (pc.Unlock? ==> pc.rest == After(free, j + |pc.taken| - 1))
  }

  /** Client `c` won the lock of the list `free` and goes on from record `r`. */
  ghost predicate SectionInv(s: State, c: nat, r: int, free: seq<int>) {
    && LockedBy(s, c) && StateInv(Masked(s, c)) && s.m.free == free && 0 <= r < |s.m.recs|
    && s.pcs[c].taken != [] && s.pcs[c].taken[0] == r
    && (forall j: nat | j < |free| && free[j] == r :: Segment(s.pcs[c], free, j))
  }

  lemma {:induction false} SectionBegins(s: State, c: nat, sp: bool)
    requires StateInv(s) && c < |s.pcs| && s.pcs[c].FetchOr? && !s.m.avail.locked && !s.pcs[c].seen.locked
    ensures SectionInv(RunStep(s, c, sp), c, s.pcs[c].seen.ptr, s.m.free)
  {
    assert ClientOk(s.m, c, s.pcs[c]);
    var n, r := s.pcs[c].n, s.pcs[c].seen.ptr;
    var s1 := RunStep(s, c, sp);
    assert s1 == State(Locked(s.m, c), s.pcs[c := Traverse(n, [r])]);
    LockRule(s, c, Unlock(n, [], s.m.avail.ptr));
    assert Masked(s1, c) == State(Locked(s.m, c), s.pcs[c := Unlock(n, [], s.m.avail.ptr)]);
  }

  /** While the list is locked nobody but the holder changes it. */
  lemma {:induction false} FreeIsFrozen(s: State, e: Event)
    requires StateInv(s) && s.m.avail.locked && !(e.By? && e.c == s.m.holder)
    ensures Apply(s, e).m.free == s.m.free && Apply(s, e).m.avail.locked && LockSound(s, e)
  {
    if e.By? && e.c < |s.pcs| {
      assert ClientOk(s.m, e.c, s.pcs[e.c]);
    }
  }

  /** A step of another client, or a change of a source. */
  lemma {:induction false} SectionSurvives(s: State, e: Event, c: nat, r: int, free: seq<int>)
    requires SectionInv(s, c, r, free) && !(e.By? && e.c == c)
    ensures SectionInv(Apply(s, e), c, r, free)
  {
    var mask, s' := Masked(s, c), Apply(s, e);
    assert ClientOk(mask.m, c, mask.pcs[c]);
    FreeIsFrozen(mask, e);
    ApplyKeeps(mask, e);
    var mask' := Apply(mask, e);
    OthersCannotTell(s, e, c);
    assert ClientOk(mask'.m, c, mask'.pcs[c]);
    assert Masked(s', c) == mask';
  }

  lemma {:induction false} OthersCannotTell(s: State, e: Event, c: nat)
    requires LockedBy(s, c) && !(e.By? && e.c == c)
    ensures var s', mask' := Apply(s, e), Apply(Masked(s, c), e);
      && |s'.pcs| == |mask'.pcs| == |s.pcs| && s'.m == mask'.m && |s.m.recs| <= |s'.m.recs|
      && s'.pcs[c] == s.pcs[c] && mask'.pcs == s'.pcs[c := Masked(s, c).pcs[c]]
  {
    if e.By? && e.c < |s.pcs| {
      var r := Act(s.m, e.c, s.pcs[e.c], e.a);
      RecordsOnlyGrow(s.m, e.c, s.pcs[e.c], e.a);
      assert Apply(s, e) == State(r.0, s.pcs[e.c := r.1]);
      assert Apply(Masked(s, c), e) == State(r.0, Masked(s, c).pcs[e.c := r.1]);
    }
  }

  lemma {:induction false} RecordsOnlyGrow(m: Mem, c: int, pc: Pc, a: Action)
    ensures |m.recs| <= |Act(m, c, pc, a).0.recs|
  {
  }

  /** A step of the winner inside its section. */
  lemma {:induction false} SectionAdvances(s: State, a: Action, c: nat, r: int, free: seq<int>)
    requires SectionInv(s, c, r, free) && LockedBy(Step(s, c, a), c)
    ensures SectionInv(Step(s, c, a), c, r, free)
  {
    var s' := Step(s, c, a);
    if s.pcs[c].Traverse? && a.Run? {
      var n, taken := s.pcs[c].n, s.pcs[c].taken;
      assert Masked(s', c) == Masked(s, c);
      forall j: nat | j < |free| && free[j] == r
        ensures Segment(s'.pcs[c], free, j)
      {
        assert Segment(s.pcs[c], free, j) && FreeAt(Masked(s, c).m, j + |taken| - 1);
      }
    } else {
      assert s' == s;
    }
  }

  lemma {:induction false} SectionKeeps(s: State, events: seq<Event>, c: nat, r: int, free: seq<int>)
    requires SectionInv(s, c, r, free) && InSection(s, c, events)
    ensures SectionInv(Exec(s, events), c, r, free)
  {
    if events != [] {
      var before, e := events[..|events| - 1], events[|events| - 1];
      forall k | 0 <= k <= |before|
        ensures LockedBy(Exec(s, before[..k]), c)
      {
        assert before[..k] == events[..k];
      }
      SectionKeeps(s, before, c, r, free);
      assert events[..|events|] == events;
      if e.By? && e.c == c {
        SectionAdvances(Exec(s, before), e.a, c, r, free);
      } else {
        SectionSurvives(Exec(s, before), e, c, r, free);
      }
    }
  }

  // ---------- Leaving the section with a stale pointer ----------

  lemma {:induction false} TwoHolders(s: State, r: int, c: nat, d: nat)
    requires c < |s.pcs| && d < |s.pcs| && c != d && r in Held(s.pcs[c]) && r in Held(s.pcs[d])
    ensures !Placed(s, r)
  {
  }

  /** If the stale record belongs to another client, two clients hold it now. */
  lemma {:induction false} StaleOwnedBreaks(s: State, c: nat, sp: bool, r: int)
    requires SectionInv(s, c, r, s.m.free) && s.pcs[c].Unlock? && s.m.owner[r] != FREE
    ensures var s' := RunStep(s, c, sp); r < |s'.m.recs| && !Placed(s', r)
  {
    var mask, s' := Masked(s, c), RunStep(s, c, sp);
    assert OwnerOk(mask, r) && ClientOk(mask.m, c, mask.pcs[c]);
    var d := s.m.owner[r];
    HeldIsOwned(mask, d, r);
    HeldIsOwned(mask, c, r);
    TwoHolders(s', r, c, d);
  }

  /** The list left behind by a traversal that started past the head does not reach the head. */
  lemma {:induction false} HeadIsLost(m: Mem, m': Mem, k: nat, q: nat)
    requires MemOk(m) && m'.recs == m.recs && m.free != [] && k >= 1
    requires m'.avail.ptr == After(m.free, k - 1)
    ensures ChaseFree(m', q) == (if k + q < |m.free| then m.free[k + q] else NULL)
    ensures ChaseFree(m', q) != m.free[0]
  {
    if q > 0 {
      HeadIsLost(m, m', k, q - 1);
      if k + q - 1 < |m.free| {
        assert FreeAt(m, k + q - 1);
      }
    }
    assert FreeAt(m, 0);
    if k + q < |m.free| {
      assert Apart(m.free, 0, k + q);
    }
  }

  /** Nobody holds the head of the list after the winner took a later segment of it. */
  lemma {:induction false} HeadIsNotHeld(s: State, c: nat, sp: bool, j: nat, d: nat)
    requires LockedBy(s, c) && StateInv(Masked(s, c)) && s.pcs[c].Unlock? && j >= 1 && s.m.free != []
    requires Segment(s.pcs[c], s.m.free, j) && d < |s.pcs|
    ensures s.m.free[0] !in Held(RunStep(s, c, sp).pcs[d])
  {
    var mask, free := Masked(s, c), s.m.free;
    assert FreeAt(mask.m, 0);
    if d == c {
      var taken := s.pcs[c].taken;
      forall i | 0 <= i < |taken|
        ensures taken[i] != free[0]
      {
        assert Apart(free, 0, j + i);
      }
    } else {
      HeldIsOwned(mask, d, free[0]);
    }
  }

  /** If the stale record is deeper in the free list, the head of the list is lost. */
  lemma {:induction false} StaleFreeBreaks(s: State, c: nat, sp: bool, j: nat)
    requires LockedBy(s, c) && StateInv(Masked(s, c)) && s.pcs[c].Unlock? && 1 <= j < |s.m.free|
    requires s.pcs[c].taken != [] && Segment(s.pcs[c], s.m.free, j)
    ensures var s' := RunStep(s, c, sp); 0 <= s.m.free[0] < |s'.m.recs| && !Placed(s', s.m.free[0])
  {
    var mask, s', free := Masked(s, c), RunStep(s, c, sp), s.m.free;
    assert FreeAt(mask.m, 0);
    forall q: nat
      ensures ChaseFree(s'.m, q) != free[0]
    {
      HeadIsLost(mask.m, s'.m, j + |s.pcs[c].taken|, q);
    }
    forall d | 0 <= d < |s'.pcs|
      ensures free[0] !in Held(s'.pcs[d])
    {
      HeadIsNotHeld(s, c, sp, j, d);
    }
  }

  lemma {:induction false} StaleUnlockBreaks(s: State, c: nat, sp: bool, r: int)
    requires SectionInv(s, c, r, s.m.free) && s.pcs[c].Unlock? && r != s.m.avail.ptr
    ensures !Safe(RunStep(s, c, sp))
  {
    var mask := Masked(s, c);
    if s.m.owner[r] != FREE {
      StaleOwnedBreaks(s, c, sp, r);
    } else {
      assert r in mask.m.free;
      var j: nat :| j < |s.m.free| && s.m.free[j] == r;
      StaleFreeBreaks(s, c, sp, j);
    }
  }

  // ---------- The hypothesis is exact ----------

  /** However the other clients interfere, a client that wins the lock bit leaves its locked section with
      the records partitioned exactly when the pointer it loaded is the one `fetch_or` returned. */
  lemma {:induction false} SectionIsSafeIffPointersAgree(s: State, c: nat, sp: bool, events: seq<Event>, sp': bool)
    requires StateInv(s) && c < |s.pcs| && s.pcs[c].FetchOr? && !s.m.avail.locked
    requires InSection(RunStep(s, c, sp), c, events)
    requires var s1 := Exec(RunStep(s, c, sp), events); c < |s1.pcs| && s1.pcs[c].Unlock?
    ensures Safe(RunStep(Exec(RunStep(s, c, sp), events), c, sp')) <==> s.pcs[c].seen == s.m.avail
  {
    var seen := s.pcs[c].seen;
    assert LockedBy(RunStep(s, c, sp), c) by { assert events[..0] == []; }
    SectionBegins(s, c, sp);
    SectionKeeps(RunStep(s, c, sp), events, c, seen.ptr, s.m.free);
    var s1 := Exec(RunStep(s, c, sp), events);
    if seen == s.m.avail {
      HonestSection(s, c, sp, events);
      RunKeeps(s1, c, sp');
      InvIsSafe(RunStep(s1, c, sp'));
    } else {
      assert s1.m.avail.ptr == s.m.avail.ptr;
      StaleUnlockBreaks(s1, c, sp', seen.ptr);
    }
  }

  lemma {:induction false} HonestSection(s: State, c: nat, sp: bool, events: seq<Event>)
    requires StateInv(s) && c < |s.pcs| && s.pcs[c].FetchOr? && !s.m.avail.locked && s.pcs[c].seen == s.m.avail
    requires InSection(RunStep(s, c, sp), c, events)
    ensures StateInv(Exec(RunStep(s, c, sp), events))
  {
    FetchOrKeeps(s, c, sp);
    LockedRunsAreSound(RunStep(s, c, sp), c, events);
    ExecKeeps(RunStep(s, c, sp), events);
  }

  /** While a client has the lock bit, no lock step is won. */
  lemma {:induction false} LockedRunsAreSound(s: State, c: nat, events: seq<Event>)
    requires StateInv(s) && InSection(s, c, events)
    ensures SoundRun(s, events)
  {
    if events != [] {
      var before := events[..|events| - 1];
      forall k | 0 <= k <= |before|
        ensures LockedBy(Exec(s, before[..k]), c)
      {
        assert before[..k] == events[..k];
      }
      LockedRunsAreSound(s, c, before);
      ExecKeeps(s, before);
      var s1 := Exec(s, before);
      assert before[..|before|] == before;
      assert ClientOk(s1.m, c, s1.pcs[c]);
    }
  }

  /** Left alone, the winner leaves its section. */
  lemma {:induction false} WinnerLeaves(s: State, c: nat) returns (events: seq<Event>)
    requires c < |s.pcs| && s.pcs[c].Traverse?
    ensures InSection(s, c, events) && LockedBy(Exec(s, events), c) && Exec(s, events).pcs[c].Unlock?
    ensures forall i | 0 <= i < |events| :: events[i] == By(c, Run(false))
    decreases s.pcs[c].n - |s.pcs[c].taken|
  {
    var e := By(c, Run(false));
    var s1 := Apply(s, e);
    if s1.pcs[c].Unlock? {
      events := [e];
      OneMore(s, c, []);
    } else {
      var rest := WinnerLeaves(s1, c);
      events := [e] + rest;
      OneMore(s, c, rest);
    }
  }

  lemma {:induction false} ExecCons(s: State, e: Event, rest: seq<Event>)
    ensures Exec(s, [e] + rest) == Exec(Apply(s, e), rest)
  {
    if rest == [] {
      assert [e] + rest == [e] && [e][..0] == [];
    } else {
      ExecCons(s, e, rest[..|rest| - 1]);
      assert ([e] + rest)[..|rest|] == [e] + rest[..|rest| - 1];
    }
  }

  lemma {:induction false} OneMore(s: State, c: nat, rest: seq<Event>)
    requires LockedBy(s, c) && InSection(Apply(s, By(c, Run(false))), c, rest)
    ensures InSection(s, c, [By(c, Run(false))] + rest)
    ensures Exec(s, [By(c, Run(false))] + rest) == Exec(Apply(s, By(c, Run(false))), rest)
  {
    var e := By(c, Run(false));
    var events := [e] + rest;
    ExecCons(s, e, rest);
    forall k | 0 <= k <= |events|
      ensures LockedBy(Exec(s, events[..k]), c)
    {
      if k > 0 {
        assert events[..k] == [e] + rest[..k - 1];
        ExecCons(s, e, rest[..k - 1]);
        assert LockedBy(Exec(Apply(s, e), rest[..k - 1]), c);
      }
    }
  }

  /** Steps of a client in its section take no lock. */
  lemma {:induction false} SoloIsSound(s: State, c: nat, events: seq<Event>)
    requires InSection(s, c, events) && forall i | 0 <= i < |events| :: events[i] == By(c, Run(false))
    ensures SoundRun(s, events)
  {
    if events != [] {
      var before := events[..|events| - 1];
      forall k | 0 <= k <= |before|
        ensures LockedBy(Exec(s, before[..k]), c)
      {
        assert before[..k] == events[..k];
      }
      SoloIsSound(s, c, before);
      assert before[..|before|] == before;
    }
  }

  /** A lock step won with another pointer than the one loaded has a continuation, itself without any such
      step, that leaves two clients with one record, loses a record, or faults. */
  lemma {:induction false} StaleWinBreaks(s: State, e: Event) returns (more: seq<Event>)
    requires StateInv(s) && !LockSound(s, e)
    ensures SoundRun(Apply(s, e), more) && !Safe(Exec(Apply(s, e), more))
  {
    var c, sp := e.c, e.a.spurious;
    var s1 := Apply(s, e);
    if s.pcs[c].seen.locked {
      more := [];
      assert s1.pcs[c].Panicked?;
    } else {
      SectionBegins(s, c, sp);
      var events := WinnerLeaves(s1, c);
      SectionIsSafeIffPointersAgree(s, c, sp, events, false);
      SoloIsSound(s1, c, events);
      more := events + [By(c, Run(false))];
      assert more[..|events|] == events;
    }
  }

  /** The hypothesis of the ownership theorems is exact: a lock step may be added to a sound run without
      endangering any sound continuation if and only if it finds the pointer it loaded. */
  lemma {:induction false} HypothesisIsExact(clients: nat, sources: seq<int>, events: seq<Event>, e: Event)
    requires SoundRun(InitState(clients, sources), events)
    ensures var s := Exec(InitState(clients, sources), events);
      LockSound(s, e) <==> forall more | SoundRun(Apply(s, e), more) :: Safe(Exec(Apply(s, e), more))
  {
    InitInv(clients, sources);
    ExecKeeps(InitState(clients, sources), events);
    var s := Exec(InitState(clients, sources), events);
    if LockSound(s, e) {
      ApplyKeeps(s, e);
      forall more | SoundRun(Apply(s, e), more)
        ensures Safe(Exec(Apply(s, e), more))
      {
        ExecKeeps(Apply(s, e), more);
        InvIsSafe(Exec(Apply(s, e), more));
      }
    } else {
      var more := StaleWinBreaks(s, e);
    }
  }

  // ---------- Such runs exist ----------

  /** The outcome of `k` steps of one client with nobody interfering. */
  ghost function Solo(m: Mem, c: nat, pc: Pc, k: nat): (Mem, Pc) {
    if k == 0 then (m, pc)
    else
      var r := Solo(m, c, pc, k - 1);
      Tick(r.0, c, r.1, false)
  }

  lemma {:induction false} Then(s0: State, events: seq<Event>, e: Event) returns (events': seq<Event>)
    ensures Exec(s0, events') == Apply(Exec(s0, events), e)
  {
    events' := events + [e];
    assert events'[..|events|] == events;
  }

  /** A call by client `c` followed by `k` of its steps. */
  lemma {:induction false} SoloRun(s0: State, events: seq<Event>, c: nat, a: Action, k: nat)
    returns (events': seq<Event>)
    requires c < |Exec(s0, events).pcs| && !a.Run?
    ensures var s := Exec(s0, events); var r := Solo(s.m, c, Act(s.m, c, s.pcs[c], a).1, k);
      Exec(s0, events') == State(r.0, s.pcs[c := r.1])
  {
    var s := Exec(s0, events);
    if k == 0 {
      events' := Then(s0, events, By(c, a));
    } else {
      var mid := SoloRun(s0, events, c, a, k - 1);
      events' := Then(s0, mid, By(c, Run(false)));
      var r := Solo(s.m, c, Act(s.m, c, s.pcs[c], a).1, k - 1);
      assert s.pcs[c := r.1][c := Tick(r.0, c, r.1, false).1] == s.pcs[c := Tick(r.0, c, r.1, false).1];
    }
  }

  /** Memory with record 0 published and in the given place. */
  ghost function One(avail: Head, free: seq<int>, owner: int, holder: int): Mem {
    Mem([Rec(0, NULL, NULL)], 0, avail, [], free, [0], [owner], holder)
  }

  ghost function NoRecords(): Mem {
    Mem([], NULL, Head(NULL, false), [], [], [], [], NULL)
  }

  /** The sequence updates that the runs below perform. */
  lemma {:induction false} SmallUpdates()
    ensures [Rec(0, NULL, NULL)][0 := Rec(0, NULL, NULL)] == [Rec(0, NULL, NULL)]
    ensures [] + [Rec(0, NULL, NULL)] == [Rec(0, NULL, NULL)]
    ensures var none: seq<int> := []; none + [0] == [0] && [0] + none == [0]
    ensures [0][1..] == []
    ensures GiveTo([0], [0], FREE) == [FREE] && GiveTo([FREE], [0], 0) == [0]
  {
  }

  lemma {:induction false} SoloCreates()
    ensures Solo(NoRecords(), 0, LoadAvail(1), 4) == (One(Head(NULL, false), [], 0, NULL), Holding(1, [0], []))
  {
    SmallUpdates();
    var m1 := Mem([Rec(0, NULL, NULL)], NULL, Head(NULL, false), [], [], [], [0], NULL);
    assert Solo(NoRecords(), 0, LoadAvail(1), 1) == (NoRecords(), Collect(1, [], NULL, []));
    assert Solo(NoRecords(), 0, LoadAvail(1), 2) == (m1, NewRec(1, [], 0, NULL));
    assert Solo(NoRecords(), 0, LoadAvail(1), 3) == (One(Head(NULL, false), [], 0, NULL), LinkNew(1, [], 0));
  }

  lemma {:induction false} SoloNext(m: Mem, c: nat, pc: Pc, k: nat, m1: Mem, pc1: Pc)
    requires Solo(m, c, pc, k) == (m1, pc1)
    ensures Solo(m, c, pc, k + 1) == Tick(m1, c, pc1, false)
  {
  }

  lemma {:induction false} SoloClears()
    ensures var m := One(Head(NULL, false), [], 0, NULL); Solo(m, 0, Reset(1, [0], 0, true), 1) == (m, Check(1, [0]))
  {
    SmallUpdates();
    var m, pc := One(Head(NULL, false), [], 0, NULL), Reset(1, [0], 0, true);
    SoloNext(m, 0, pc, 0, m, pc);
  }

  lemma {:induction false} SoloResets()
    ensures var m := One(Head(NULL, false), [], 0, NULL);
      Solo(m, 0, Reset(1, [0], 0, true), 3) == (m, PushStore(1, [0], NULL))
  {
    var m, pc := One(Head(NULL, false), [], 0, NULL), Reset(1, [0], 0, true);
    SoloClears();
    SoloNext(m, 0, pc, 1, m, Check(1, [0]));
    SoloNext(m, 0, pc, 2, m, PushLoad(1, [0]));
  }

  lemma {:induction false} SoloReleases()
    ensures var m := One(Head(NULL, false), [], 0, NULL);
      Solo(m, 0, Reset(1, [0], 0, true), 5) == (One(Head(0, false), [0], FREE, NULL), Idle)
  {
    SmallUpdates();
    SoloResets();
    var m, pc := One(Head(NULL, false), [], 0, NULL), Reset(1, [0], 0, true);
    SoloNext(m, 0, pc, 3, m, PushStore(1, [0], NULL));
    SoloNext(m, 0, pc, 4, m, PushCas(1, [0], NULL));
  }

  lemma {:induction false} SoloReuses()
    ensures var m := One(Head(0, false), [0], FREE, NULL);
      Solo(m, 0, LoadAvail(1), 6) == (One(Head(NULL, false), [], 0, NULL), Holding(1, [0], []))
  {
    SmallUpdates();
    var m, pc := One(Head(0, false), [0], FREE, NULL), LoadAvail(1);
    var locked, taken := One(Head(0, true), [0], FREE, 0), One(Head(NULL, false), [], 0, NULL);
    assert Solo(m, 0, pc, 1) == (m, FetchOr(1, Head(0, false)));
    assert Solo(m, 0, pc, 2) == (locked, Traverse(1, [0]));
    assert Solo(m, 0, pc, 3) == (locked, Unlock(1, [0], NULL));
    assert Solo(m, 0, pc, 4) == (taken, NullTail(1, [0]));
    assert Solo(m, 0, pc, 5) == (taken, Collect(1, [], 0, [0]));
  }

  lemma {:induction false} StealStep(s0: State, events: seq<Event>) returns (events': seq<Event>)
    requires Exec(s0, events) == State(One(Head(NULL, false), [], 0, NULL), [Holding(1, [0], []), FetchOr(1, Head(0,
      false))])
    ensures Exec(s0, events') == State(One(Head(NULL, true), [], 0, 1), [Holding(1, [0], []), Traverse(1, [0])])
  {
    events' := Then(s0, events, By(1, Run(false)));
  }

  /** Two clients and one record. */
  ghost function Two(m: Mem, pc0: Pc, pc1: Pc): State { State(m, [pc0, pc1]) }

  lemma {:induction false} ClientCreates() returns (events: seq<Event>)
    ensures Exec(InitState(2, []), events) == Two(One(Head(NULL, false), [], 0, NULL), Holding(1, [0], []), Idle)
  {
    assert InitState(2, []) == State(NoRecords(), [Idle, Idle]);
    SoloCreates();
    events := SoloRun(InitState(2, []), [], 0, Acquire(1), 4);
  }

  lemma {:induction false} ClientReleases(s0: State, events: seq<Event>) returns (events': seq<Event>)
    requires Exec(s0, events) == Two(One(Head(NULL, false), [], 0, NULL), Holding(1, [0], []), Idle)
    ensures Exec(s0, events') == Two(One(Head(0, false), [0], FREE, NULL), Idle, Idle)
  {
    SoloReleases();
    events' := SoloRun(s0, events, 0, Drop, 5);
  }

  lemma {:induction false} OtherLoads(s0: State, events: seq<Event>) returns (events': seq<Event>)
    requires Exec(s0, events) == Two(One(Head(0, false), [0], FREE, NULL), Idle, Idle)
    ensures Exec(s0, events') == Two(One(Head(0, false), [0], FREE, NULL), Idle, FetchOr(1, Head(0, false)))
  {
    var called := Then(s0, events, By(1, Acquire(1)));
    events' := Then(s0, called, By(1, Run(false)));
  }

  lemma {:induction false} ClientReuses(s0: State, events: seq<Event>, pc1: Pc) returns (events': seq<Event>)
    requires Exec(s0, events) == Two(One(Head(0, false), [0], FREE, NULL), Idle, pc1)
    ensures Exec(s0, events') == Two(One(Head(NULL, false), [], 0, NULL), Holding(1, [0], []), pc1)
  {
    SoloReuses();
    events' := SoloRun(s0, events, 0, Acquire(1), 6);
  }

  /** Client 0 creates and releases record 0, client 1 loads it as the head of the available list,
      client 0 acquires it again, and client 1 wins the lock bit of the list that is now empty. */
  lemma {:induction false} StaleLockIsReachable() returns (events: seq<Event>)
    ensures Exec(InitState(2, []), events)
         == State(One(Head(NULL, false), [], 0, NULL), [Holding(1, [0], []), FetchOr(1, Head(0, false))])
  {
    var s0 := InitState(2, []);
    events := ClientCreates();
    events := ClientReleases(s0, events);
    events := OtherLoads(s0, events);
    events := ClientReuses(s0, events, FetchOr(1, Head(0, false)));
  }

  lemma {:induction false} StealEnds(s0: State, events: seq<Event>) returns (events': seq<Event>)
    requires Exec(s0, events) == State(One(Head(NULL, true), [], 0, 1), [Holding(1, [0], []), Traverse(1, [0])])
    ensures var s := Exec(s0, events'); s.pcs == [Holding(1, [0], []), NullTail(1, [0])] && |s.m.recs| == 1
  {
    var mid := Then(s0, events, By(1, Run(false)));
    assert Exec(s0, mid).pcs == [Holding(1, [0], []), Unlock(1, [0], NULL)];
    events' := Then(s0, mid, By(1, Run(false)));
  }

  lemma {:induction false} BothHold(s: State)
    requires s.pcs == [Holding(1, [0], []), NullTail(1, [0])]
    ensures 0 in Held(s.pcs[0]) && 0 in Held(s.pcs[1]) && !Placed(s, 0)
  {
    TwoHolders(s, 0, 0, 1);
  }

  /** Without the hypothesis the partition fails: three more steps of client 1 and both clients hold
      record 0. */
  lemma {:induction false} StaleLockBreaksPartition() returns (events: seq<Event>)
    ensures var s := Exec(InitState(2, []), events);
      |s.pcs| == 2 && 0 in Held(s.pcs[0]) && 0 in Held(s.pcs[1]) && |s.m.recs| == 1 && !Placed(s, 0)
  {
    var s0 := InitState(2, []);
    events := StaleLockIsReachable();
    events := StealStep(s0, events);
    events := StealEnds(s0, events);
    BothHold(Exec(s0, events));
  }
}
