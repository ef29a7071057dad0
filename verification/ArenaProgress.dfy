/** A thread that runs alone, with the mutex in its reach, gets its answer: the measure is the capacity left
    for new blocks, then how far the thread is from its next answer or block. */
module ArenaProgress {
  import opened ArenaLayout
  import opened ArenaMachine
  import opened ArenaTheorems
  import opened ArenaFit
  import opened ArenaCalls

  /** Nobody else has the mutex. */
  ghost predicate CanLock(s: State, t: nat) {
    s.a.mutex == UNLOCKED || s.a.mutex == t
  }

  /** What the thread read is still so, and of the current chunk. */
  ghost predicate UpToDate(a: Arena, pc: Pc) {
    match pc
    case LoadBump(_, c) => c == a.current
    case CheckLen(_, c, bump) => c == a.current && bump == BumpOf(a, c)
    case Cas(_, c, bump, _) => bump == BumpOf(a, c)
    case CheckLen2(_, bump) => bump == BumpOf(a, a.current)
    case _ => true
  }

  /** The way to go until the answer, or until a block is added, when the current chunk serves. */
  ghost function WayIfFits(a: Arena, pc: Pc): nat {
    match pc
    case Idle => 0
    case Full(_) => 0
    case Count(_, _, _, _) => 1
    case Cas(_, _, _, _) => if UpToDate(a, pc) then 2 else 28
    case CheckLen(_, _, _) => if UpToDate(a, pc) then 3 else 29
    case LoadBump(_, _) => if UpToDate(a, pc) then 4 else 30
    case LoadChunk(_) => 5
    case Unlock(_, ok) => 6
    case CheckLen2(_, _) => 24
    case LoadBump2(_, _) => 25
    case LoadChunk2(_) => 26
    case Lock(_) => 27
    case CheckCap(_) => 39
    case AddBlock(_) => 38
    case StoreChunk(_, _) => 40
    case PushChunk(_) => 41
  }

  /** The same when it does not. */
  ghost function WayIfNot(a: Arena, pc: Pc): nat {
    match pc
    case Idle => 0
    case Full(_) => 0
    case Count(_, _, _, _) => 1
    case AddBlock(_) => 12
    case CheckCap(_) => 13
    case CheckLen2(_, _) => if UpToDate(a, pc) then 14 else 23
    case LoadBump2(_, _) => 15
    case LoadChunk2(_) => 16
    case Lock(_) => 17
    case CheckLen(_, _, _) => if UpToDate(a, pc) then 18 else 33
    case LoadBump(_, _) => if UpToDate(a, pc) then 19 else 34
    case LoadChunk(_) => 20
    case Unlock(_, ok) => if ok then 21 else 1
    case Cas(_, _, _, _) => 32
    case StoreChunk(_, _) => 40
    case PushChunk(_) => 41
  }

  ghost function Way(a: Arena, pc: Pc): nat {
    if pc.Idle? || CurrentFits(a, pc.l) then WayIfFits(a, pc) else WayIfNot(a, pc)
  }

  /** Capacity for new blocks. */
  ghost function Room(a: Arena): nat {
    if a.allocBytes <= a.cap then a.cap - a.allocBytes else 0
  }

  ghost predicate Closer(s: State, s': State, t: nat) {
    && |s'.pcs| == |s.pcs| && t < |s.pcs| && CanLock(s', t)
    && (Room(s'.a) < Room(s.a) || (Room(s'.a) == Room(s.a) && Way(s'.a, s'.pcs[t]) < Way(s.a, s.pcs[t])))
  }

  ghost predicate Ready(s: State, t: nat) {
    && StateInv(s) && RefusedInv(s) && t < |s.pcs| && CanLock(s, t)
    && !s.pcs[t].Idle? && !s.pcs[t].Full?
  }

  /** The check against the current chunk's bump. */
  lemma {:induction false} CheckTells(a: Arena, l: Layout)
    requires 0 < a.block < HALF && a.current < |a.chunks| && EveryChunkOk(a) && GoodLayout(l)
    ensures LenNow(a) == a.block
    ensures Check(a, l, BumpOf(a, a.current)).Some? <==> CurrentFits(a, l)
  {
    var ch := a.chunks[a.current];
    assert ChunkOk(ch) && ch.len == a.block;
    CheckIsFits(ch, l);
  }

  lemma {:induction false} LoadsCloser(s: State, t: nat)
    requires Ready(s, t) && (s.pcs[t].LoadChunk? || s.pcs[t].LoadBump? || s.pcs[t].LoadChunk2? || s.pcs[t].LoadBump2?)
    ensures Closer(s, RunStep(s, t, false), t)
  {
    assert ThreadOk(s.a, t, s.pcs[t]) && Refused(s.a, s.pcs[t]);
  }

  lemma {:induction false} CheckCloser(s: State, t: nat)
    requires Ready(s, t) && s.pcs[t].CheckLen?
    ensures Closer(s, RunStep(s, t, false), t)
  {
    assert ThreadOk(s.a, t, s.pcs[t]);
    CheckTells(s.a, s.pcs[t].l);
  }

  lemma {:induction false} CasCloser(s: State, t: nat)
    requires Ready(s, t) && s.pcs[t].Cas?
    ensures Closer(s, RunStep(s, t, false), t)
  {
    assert ThreadOk(s.a, t, s.pcs[t]);
  }

  lemma {:induction false} MutexCloser(s: State, t: nat)
    requires Ready(s, t) && (s.pcs[t].Lock? || s.pcs[t].CheckCap? || s.pcs[t].Unlock?)
    ensures Closer(s, RunStep(s, t, false), t)
  {
    assert ThreadOk(s.a, t, s.pcs[t]) && Refused(s.a, s.pcs[t]);
  }

  lemma {:induction false} RecheckCloser(s: State, t: nat)
    requires Ready(s, t) && s.pcs[t].CheckLen2?
    ensures Closer(s, RunStep(s, t, false), t)
  {
    assert ThreadOk(s.a, t, s.pcs[t]) && Refused(s.a, s.pcs[t]);
    CheckTells(s.a, s.pcs[t].l);
    if Check(s.a, s.pcs[t].l, s.pcs[t].bump).None? {
      CheckRefuses(s, t);
    }
  }

  lemma {:induction false} GrowCloser(s: State, t: nat)
    requires Ready(s, t) && (s.pcs[t].AddBlock? || s.pcs[t].PushChunk? || s.pcs[t].StoreChunk? || s.pcs[t].Count?)
    ensures Closer(s, RunStep(s, t, false), t)
  {
    assert ThreadOk(s.a, t, s.pcs[t]);
  }

  lemma {:induction false} StepCloser(s: State, t: nat)
    requires Ready(s, t)
    ensures Closer(s, RunStep(s, t, false), t)
  {
    var pc := s.pcs[t];
    if pc.LoadChunk? || pc.LoadBump? || pc.LoadChunk2? || pc.LoadBump2? {
      LoadsCloser(s, t);
    } else if pc.CheckLen? {
      CheckCloser(s, t);
    } else if pc.Cas? {
      CasCloser(s, t);
    } else if pc.CheckLen2? {
      RecheckCloser(s, t);
    } else if pc.Lock? || pc.CheckCap? || pc.Unlock? {
      MutexCloser(s, t);
    } else {
      GrowCloser(s, t);
    }
  }

  /** `k` steps of thread `t`. */
  ghost function Alone(t: nat, k: nat): Schedule {
    seq(k, _ => (t, Run(false)))
  }

  lemma {:induction false} AloneSnoc(s0: State, schedule: Schedule, t: nat, k: nat)
    ensures Exec(s0, schedule + Alone(t, k + 1)) == RunStep(Exec(s0, schedule + Alone(t, k)), t, false)
  {
    var all := schedule + Alone(t, k + 1);
    assert all[..|all| - 1] == schedule + Alone(t, k);
    assert all[|all| - 1] == (t, Run(false));
  }

  ghost predicate AnsweredBy(s0: State, schedule: Schedule, t: nat) {
    var s := Exec(s0, schedule);
    t < |s.pcs| && (s.pcs[t].Idle? || s.pcs[t].Full?)
  }

  /** From every reachable state in which no other thread has the mutex, a thread left alone gets the answer to
      the call it is in. */
  lemma {:induction false} AnswerComes(block: nat, cap: nat, threads: nat, schedule: Schedule, t: nat, k0: nat)
    returns (k: nat)
    requires 0 < block < HALF && block <= cap
    requires var s := Exec(InitState(block, cap, threads), schedule + Alone(t, k0)); t < |s.pcs| && CanLock(s, t)
    ensures AnsweredBy(InitState(block, cap, threads), schedule + Alone(t, k), t)
    decreases Room(Exec(InitState(block, cap, threads), schedule + Alone(t, k0)).a),
              WayAt(InitState(block, cap, threads), schedule + Alone(t, k0), t)
  {
    var s0 := InitState(block, cap, threads);
    var s := Exec(s0, schedule + Alone(t, k0));
    if s.pcs[t].Idle? || s.pcs[t].Full? {
      k := k0;
    } else {
      ExecKeeps(block, cap, threads, schedule + Alone(t, k0));
      RefusedKept(block, cap, threads, schedule + Alone(t, k0));
      StepCloser(s, t);
      AloneSnoc(s0, schedule, t, k0);
      k := AnswerComes(block, cap, threads, schedule, t, k0 + 1);
    }
  }

  ghost function WayAt(s0: State, schedule: Schedule, t: nat): nat {
    var s := Exec(s0, schedule);
    if t < |s.pcs| then Way(s.a, s.pcs[t]) else 0
  }

  /** So every call that is taken is answered if its thread is left alone with the mutex free: with one range of
      the size and alignment asked for, or by reporting a full arena. */
  lemma {:induction false} CallIsAnswered(block: nat, cap: nat, threads: nat, schedule: Schedule, t: nat, l: Layout)
    returns (k: nat)
    requires 0 < block < 0x8000_0000_0000_0000 && block <= cap
    requires IsPowerOfTwo(l.align) && 1 <= l.align <= 0x8000_0000_0000_0000
    requires var s := Exec(InitState(block, cap, threads), schedule);
      t < |s.pcs| && (s.pcs[t].Idle? || s.pcs[t].Full?) && s.a.mutex == UNLOCKED
    ensures var s0, all := InitState(block, cap, threads), schedule + [(t, Call(l))] + Alone(t, k);
      var s, claims := Exec(s0, all), ReturnedTo(s0, all, t, |schedule|);
      && AnsweredBy(s0, all, t)
      && (s.pcs[t].Idle? ==> |claims| == 1 && AnswerOk(s.a, claims[0], l))
      && (s.pcs[t].Full? ==> claims == [] && s.a.allocBytes + s.a.block > s.a.cap && !CurrentFits(s.a, l))
  {
    var s0, called := InitState(block, cap, threads), schedule + [(t, Call(l))];
    assert called[..|schedule|] == schedule;
    assert called + Alone(t, 0) == called;
    k := AnswerComes(block, cap, threads, called, t, 0);
    var all := called + Alone(t, k);
    assert all[..|schedule|] == schedule;
    CallStands(block, cap, threads, all, t, |schedule|, l);
    RefusedKept(block, cap, threads, all);
    var s := Exec(s0, all);
    assert Refused(s.a, s.pcs[t]);
  }
}
