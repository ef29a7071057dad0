/**
  A thread that runs alone gets its answer.  The measure: the levels still to be linked; whether another
  thread has linked anything since this thread's last search began; the phase of the code; and, inside a
  search, what is left to visit.
 */
module SkipListCompletes {
  import opened Basics
  import opened SkipListHeap
  import opened SkipListMachine
  import opened SkipListSpec
  import opened SkipListInvariant
  import opened SkipListTheorems
  import opened SkipListProgress
  import opened SkipListCalls

  // ---------- The measure ----------

  ghost predicate Done(pc: Pc) { pc.Idle? || pc.Cursor? }

  /** Nothing was linked by others since the thread's last search began. */
  ghost predicate Calm(s: State, t: nat)
    requires Running(s, t)
  {
    s.tallies[t].mark == Others(s, t)
  }

  ghost function LevelsLeft(h: Heap, n: int, level: nat): nat {
    if level <= HeightOf(h, n) then HeightOf(h, n) - level else 0
  }

  ghost function GoalWork(h: Heap, goal: Goal): nat {
    match goal
    case Lookup => 0
    case Seek => 0
    case Insert(_) => MAX_HEIGHT + 2
    case Link(n, level) => LevelsLeft(h, n, level)
  }

  /** Links still to be made; more than any height before the height is known. */
  ghost function Work(h: Heap, pc: Pc): nat {
    match pc
    case Idle => 0
    case Cursor(_, _, _, _) => 0
    case LoadMax(_, goal) => GoalWork(h, goal)
    case SkipDown(_, goal, _) => GoalWork(h, goal)
    case Walk(_, goal, _, _, _) => GoalWork(h, goal)
    case Draw(_, _, _) => MAX_HEIGHT + 1
    case Raise(_, _, _, _, _) => MAX_HEIGHT + 1
    case Allocate(_, _, _, _) => MAX_HEIGHT + 1
    case Store(n, level, _) => LevelsLeft(h, n, level)
    case Cas(n, level, _) => LevelsLeft(h, n, level)
  }

  ghost function Phase(h: Heap, pc: Pc): nat {
    match pc
    case Idle => 0
    case Cursor(_, _, _, _) => 0
    case Cas(_, _, _) => 1
    case Store(_, _, _) => 2
    case Allocate(_, _, _, _) => 1
    case Raise(_, _, _, _, seen) => if seen == h.maxLevel then 2 else 3
    case Draw(_, _, _) => 4
    case _ => 3
  }

  ghost function Stale(s: State, t: nat): nat
    requires Running(s, t)
  {
    if Calm(s, t) then 0 else 1
  }

  ghost function Visits(s: State, t: nat): nat
    requires Running(s, t)
  {
    if s.pcs[t].Cursor? then 0 else Measure(s.h.rows, s.pcs[t])
  }

  ghost predicate Less4(a: nat, b: nat, c: nat, d: nat, a': nat, b': nat, c': nat, d': nat) {
    || a' < a
    || (a' == a && (b' < b || (b' == b && (c' < c || (c' == c && d' < d)))))
  }

  ghost predicate Closer(s: State, s': State, t: nat) {
    && Running(s, t) && Running(s', t)
    && Less4(Work(s.h, s.pcs[t]), Stale(s, t), Phase(s.h, s.pcs[t]), Visits(s, t),
             Work(s'.h, s'.pcs[t]), Stale(s', t), Phase(s'.h, s'.pcs[t]), Visits(s', t))
  }

  // ---------- Each step comes closer ----------

  lemma {:induction false} EndSearchCloser(s: State, t: nat, key: Bytes, goal: Goal, ctx: Ctx)
    requires Running(s, t) && (s.pcs[t].SkipDown? || s.pcs[t].Walk?) && s.pcs[t].goal == goal
    ensures Closer(s, EndSearch(s, t, key, goal, ctx), t)
  {
  }

  /** A search that goes on has the same goal and less of the list before it. */
  lemma {:induction false} GoesOnCloser(s: State, t: nat, pc: Pc)
    requires Running(s, t) && (s.pcs[t].SkipDown? || s.pcs[t].Walk?)
    requires (pc.SkipDown? || pc.Walk?) && pc.goal == s.pcs[t].goal
    requires Measure(s.h.rows, pc) < Measure(s.h.rows, s.pcs[t])
    ensures Closer(s, Goto(s, t, pc), t)
  {
  }

  lemma {:induction false} SkipDownCloser(s: State, t: nat, height: nat)
    requires StateInv(s) && Running(s, t) && s.pcs[t].SkipDown?
    ensures Closer(s, StepTick(s, t, height, false), t)
  {
    assert ThreadInv(s, t);
    var pc := s.pcs[t];
    SkipDownAdvances(s, t, height, false);
    var s' := StepSkipDown(s, t, pc.key, pc.goal, pc.level);
    if s'.pcs[t].SkipDown? || s'.pcs[t].Walk? {
      GoesOnCloser(s, t, s'.pcs[t]);
    } else {
      EndSearchCloser(s, t, pc.key, pc.goal, FreshCtx());
    }
  }

  lemma {:induction false} WalkCloser(s: State, t: nat, height: nat)
    requires StateInv(s) && Running(s, t) && s.pcs[t].Walk?
    ensures Closer(s, StepTick(s, t, height, false), t)
  {
    assert ThreadInv(s, t);
    var pc := s.pcs[t];
    WalkAdvances(s, t, height, false);
    var s' := StepWalk(s, t, pc.key, pc.goal, pc.level, pc.pred, pc.ctx);
    if s'.pcs[t].Walk? {
      GoesOnCloser(s, t, s'.pcs[t]);
    } else {
      EndSearchCloser(s, t, pc.key, pc.goal, Record(pc.ctx, pc.level, pc.pred, Load(s.h, pc.pred, pc.level)));
    }
  }

  lemma {:induction false} LoadMaxCloser(s: State, t: nat, height: nat)
    requires StateInv(s) && Running(s, t) && s.pcs[t].LoadMax?
    ensures Closer(s, StepTick(s, t, height, false), t)
  {
    LoadMaxAdvances(s, t, height, false);
  }

  lemma {:induction false} DrawCloser(s: State, t: nat, height: nat)
    requires StateInv(s) && Running(s, t) && (s.pcs[t].Draw? || s.pcs[t].Raise?) && 1 <= height <= MAX_HEIGHT
    ensures Closer(s, StepTick(s, t, height, false), t)
  {
    assert ThreadInv(s, t);
  }

  lemma {:induction false} AllocateCloser(s: State, t: nat, height: nat)
    requires StateInv(s) && Running(s, t) && s.pcs[t].Allocate?
    ensures Closer(s, StepTick(s, t, height, false), t)
  {
    assert ThreadInv(s, t);
    var node := |s.h.nodes|;
    assert HeightOf(AllocNode(s.h, Node(s.pcs[t].key, s.pcs[t].value, s.pcs[t].height)), node) == s.pcs[t].height;
  }

  lemma {:induction false} StoreCloser(s: State, t: nat, height: nat)
    requires StateInv(s) && Running(s, t) && s.pcs[t].Store?
    ensures Closer(s, StepTick(s, t, height, false), t)
  {
  }

  /** A compare-exchange that loses begins a search, after which nothing has been linked by others; and when
      nothing has, it wins. */
  lemma {:induction false} CasCloser(s: State, t: nat, node: int, level: nat, ctx: Ctx)
    requires StateInv(s) && Running(s, t) && s.pcs[t] == Cas(node, level, ctx)
    ensures Closer(s, StepCas(s, t, node, level, ctx), t)
  {
    assert ThreadInv(s, t);
    assert Calm(s, t) ==> FreshAt(s.h, ctx, level);
    LinkKeepsNodes(s.h, level, Pred(ctx, level), node);
  }

  lemma {:induction false} LinkKeepsNodes(h: Heap, level: nat, pred: int, node: int)
    ensures LinkNode(h, level, pred, node).nodes == h.nodes
  {
  }

  lemma {:induction false} StepCloser(s: State, t: nat, height: nat)
    requires StateInv(s) && Running(s, t) && !Done(s.pcs[t]) && 1 <= height <= MAX_HEIGHT
    ensures Closer(s, Step(s, t, Tick(height, false)), t)
  {
    var pc := s.pcs[t];
    if pc.SkipDown? {
      SkipDownCloser(s, t, height);
    } else if pc.Walk? {
      WalkCloser(s, t, height);
    } else if pc.LoadMax? {
      LoadMaxCloser(s, t, height);
    } else if pc.Draw? || pc.Raise? {
      DrawCloser(s, t, height);
    } else if pc.Allocate? {
      AllocateCloser(s, t, height);
    } else if pc.Store? {
      StoreCloser(s, t, height);
    } else {
      CasCloser(s, t, pc.node, pc.level, pc.ctx);
      TickIsCas(s, t, height, false);
    }
  }

  // ---------- Running alone ----------

  /** `k` steps of thread `t`, which draw the given height. */
  ghost function Alone(t: nat, height: nat, k: nat): Schedule {
    seq(k, _ => (t, Tick(height, false)))
  }

  lemma {:induction false} AloneSnoc(less: Less, threads: nat, schedule: Schedule, t: nat, height: nat, k: nat)
    ensures Run(less, threads, schedule + Alone(t, height, k + 1))
         == Step(Run(less, threads, schedule + Alone(t, height, k)), t, Tick(height, false))
  {
    assert schedule + Alone(t, height, k + 1) == (schedule + Alone(t, height, k)) + [(t, Tick(height, false))];
    RunAppend(less, threads, schedule + Alone(t, height, k), t, Tick(height, false));
  }

  ghost predicate DoneAfter(less: Less, threads: nat, schedule: Schedule, t: nat) {
    var s := Run(less, threads, schedule);
    Running(s, t) && Done(s.pcs[t])
  }

  ghost function WorkAt(s: State, t: nat): nat { if Running(s, t) then Work(s.h, s.pcs[t]) else 0 }

  ghost function StaleAt(s: State, t: nat): nat { if Running(s, t) then Stale(s, t) else 0 }

  ghost function PhaseAt(s: State, t: nat): nat { if Running(s, t) then Phase(s.h, s.pcs[t]) else 0 }

  ghost function VisitsAt(s: State, t: nat): nat { if Running(s, t) then Visits(s, t) else 0 }

  /** From every reachable state, whatever the others are in the middle of, a thread left alone gets the answer
      to the call it is in. */
  lemma {:induction false} AnswerComes(less: Less, threads: nat, schedule: Schedule, t: nat, height: nat, k0: nat)
    returns (k: nat)
    requires StrictWeakOrder(less) && t < threads && 1 <= height <= MAX_HEIGHT
    ensures k >= k0 && DoneAfter(less, threads, schedule + Alone(t, height, k), t)
    decreases WorkAt(Run(less, threads, schedule + Alone(t, height, k0)), t),
              StaleAt(Run(less, threads, schedule + Alone(t, height, k0)), t),
              PhaseAt(Run(less, threads, schedule + Alone(t, height, k0)), t),
              VisitsAt(Run(less, threads, schedule + Alone(t, height, k0)), t)
  {
    var all := schedule + Alone(t, height, k0);
    RunFixes(less, threads, all);
    var s := Run(less, threads, all);
    if Done(s.pcs[t]) {
      k := k0;
    } else {
      RunKeeps(less, threads, all);
      StepCloser(s, t, height);
      AloneSnoc(less, threads, schedule, t, height, k0);
      k := AnswerComes(less, threads, schedule, t, height, k0 + 1);
    }
  }

  // ---------- What is logged ----------

  /** The second log is the first and then events of thread `t` alone. */
  ghost predicate AddedBy(log: seq<Event>, log': seq<Event>, t: nat) {
    log <= log' && forall i | |log| <= i < |log'| :: log'[i].tid == t
  }

  lemma {:induction false} AddsOwn(log1: seq<Event>, log2: seq<Event>, log3: seq<Event>, t: nat)
    requires AddedBy(log1, log2, t) && AddedBy(log2, log3, t)
    ensures AddedBy(log1, log3, t)
  {
    forall i | |log1| <= i < |log3|
      ensures log3[i].tid == t
    {
      if i < |log2| {
        assert log3[i] == log2[i];
      }
    }
  }

  lemma {:induction false} StepAddsOwn(s: State, t: nat, a: Action)
    ensures AddedBy(s.log, Step(s, t, a).log, t)
  {
    StepsLogTheirOwnThread(s, t, a);
  }

  lemma {:induction false} OwnJobs(log: seq<Event>, log': seq<Event>, t: nat)
    requires AddedBy(log, log', t)
    ensures |JobsOf(log', t)| == |JobsOf(log, t)| + |log'| - |log|
    ensures JobsOf(log, t) <= JobsOf(log', t)
    ensures forall i | |log| <= i < |log'| :: JobsOf(log', t)[|JobsOf(log, t)| + i - |log|] == EventJob(log'[i])
    decreases |log'|
  {
    if |log'| > |log| {
      OwnJobs(log, log'[..|log'| - 1], t);
    } else {
      assert log' == log;
    }
  }

  /** The run up to the call, the call, and `k` more steps. */
  ghost function CallAlone(schedule: Schedule, t: nat, op: Op, height: nat, k: nat): Schedule {
    schedule + [(t, Call(op))] + Alone(t, height, k)
  }

  lemma {:induction false} CallRuns(less: Less, threads: nat, schedule: Schedule, t: nat, op: Op, height: nat)
    returns (k: nat)
    requires StrictWeakOrder(less) && t < threads && 1 <= height <= MAX_HEIGHT
    requires var s := Run(less, threads, schedule); Running(s, t) && s.pcs[t].Idle?
    ensures var all := CallAlone(schedule, t, op, height, k);
      && DoneAfter(less, threads, all, t) && CalledAt(less, threads, all, t, |schedule|, op)
      && all[..|schedule|] == schedule
  {
    k := AnswerComes(less, threads, schedule + [(t, Call(op))], t, height, 0);
    assert CallAlone(schedule, t, op, height, k)[..|schedule|] == schedule;
  }

  /** After the call, with nobody else running, only its thread adds to the log. */
  lemma {:induction false} CallAddsOwn(less: Less, threads: nat, schedule: Schedule, t: nat, op: Op, height: nat,
                                       k: nat)
    ensures AddedBy(Run(less, threads, schedule).log, Run(less, threads, CallAlone(schedule, t, op, height, k)).log, t)
  {
    var called := schedule + [(t, Call(op))];
    if k == 0 {
      assert CallAlone(schedule, t, op, height, k) == called;
      RunAppend(less, threads, schedule, t, Call(op));
      StepAddsOwn(Run(less, threads, schedule), t, Call(op));
    } else {
      CallAddsOwn(less, threads, schedule, t, op, height, k - 1);
      AloneSnoc(less, threads, called, t, height, k - 1);
      var before := Run(less, threads, CallAlone(schedule, t, op, height, k - 1));
      StepAddsOwn(before, t, Tick(height, false));
      AddsOwn(Run(less, threads, schedule).log, before.log, Step(before, t, Tick(height, false)).log, t);
    }
  }

  lemma {:induction false} AskedAppend(less: Less, threads: nat, schedule: Schedule, t: nat, a: Action)
    ensures var s := Run(less, threads, schedule);
      Asked(less, threads, schedule + [(t, a)], t)
      == Asked(less, threads, schedule, t) + (if Running(s, t) then JobsTaken(s.pcs[t], a) else [])
  {
    assert (schedule + [(t, a)])[..|schedule|] == schedule;
  }

  lemma {:induction false} AskedAlone(less: Less, threads: nat, schedule: Schedule, t: nat, height: nat, k: nat)
    ensures Asked(less, threads, schedule + Alone(t, height, k), t) == Asked(less, threads, schedule, t)
  {
    if k == 0 {
      assert schedule + Alone(t, height, k) == schedule;
    } else {
      AskedAlone(less, threads, schedule, t, height, k - 1);
      assert schedule + Alone(t, height, k) == (schedule + Alone(t, height, k - 1)) + [(t, Tick(height, false))];
      AskedAppend(less, threads, schedule + Alone(t, height, k - 1), t, Tick(height, false));
    }
  }

  /** What a call asks for, by operation. */
  ghost function JobsFor(op: Op): seq<Job> { JobsTaken(Idle, Call(op)) }

  /** When a call made by an idle thread is over with nobody else running, exactly its events were logged. */
  lemma {:induction false} CallLogs(less: Less, threads: nat, schedule: Schedule, t: nat, op: Op, height: nat, k: nat)
    requires StrictWeakOrder(less) && t < threads
    requires var s := Run(less, threads, schedule); Running(s, t) && s.pcs[t].Idle?
    requires DoneAfter(less, threads, CallAlone(schedule, t, op, height, k), t)
    ensures var log := Run(less, threads, schedule).log;
      var log' := Run(less, threads, CallAlone(schedule, t, op, height, k)).log;
      && log <= log' && |log'| == |log| + |JobsFor(op)|
      && forall i | |log| <= i < |log'| :: log'[i].tid == t && EventJob(log'[i]) == JobsFor(op)[i - |log|]
  {
    var all := CallAlone(schedule, t, op, height, k);
    DoneIsLogged(less, threads, schedule, t);
    DoneIsLogged(less, threads, all, t);
    AskedAppend(less, threads, schedule, t, Call(op));
    AskedAlone(less, threads, schedule + [(t, Call(op))], t, height, k);
    CallAddsOwn(less, threads, schedule, t, op, height, k);
    LogsAreJobs(Run(less, threads, schedule).log, Run(less, threads, all).log, t, Asked(less, threads, schedule, t),
                JobsFor(op));
  }

  lemma {:induction false} DoneIsLogged(less: Less, threads: nat, schedule: Schedule, t: nat)
    requires StrictWeakOrder(less) && t < threads && DoneAfter(less, threads, schedule, t)
    ensures JobsOf(Run(less, threads, schedule).log, t) == Asked(less, threads, schedule, t)
  {
    RunsAreLinearizable(less, threads, schedule);
  }

  lemma {:induction false} LogsAreJobs(log: seq<Event>, log': seq<Event>, t: nat, asked: seq<Job>, jobs: seq<Job>)
    requires AddedBy(log, log', t)
    requires JobsOf(log, t) == asked && JobsOf(log', t) == asked + jobs
    ensures |log'| == |log| + |jobs|
    ensures forall i | |log| <= i < |log'| :: log'[i].tid == t && EventJob(log'[i]) == jobs[i - |log|]
  {
    OwnJobs(log, log', t);
  }

  // ---------- The height drawn ----------

  /** Every node from `from` on, and the one about to be allocated, has the given height. */
  ghost predicate HasHeight(s: State, t: nat, from: nat, height: nat) {
    && Running(s, t) && from <= |s.h.nodes|
    && (forall n | from <= n < |s.h.nodes| :: s.h.nodes[n].height == height)
    && (s.pcs[t].Raise? || s.pcs[t].Allocate? ==> s.pcs[t].height == height)
  }

  lemma {:induction false} TickKeepsHeight(s: State, t: nat, from: nat, height: nat)
    requires HasHeight(s, t, from, height)
    ensures HasHeight(Step(s, t, Tick(height, false)), t, from, height)
  {
    if s.pcs[t].Allocate? {
      AllocateKeepsHeight(s, t, from, height);
    } else {
      NodesStay(s, t, height);
    }
  }

  lemma {:induction false} AllocateKeepsHeight(s: State, t: nat, from: nat, height: nat)
    requires HasHeight(s, t, from, height) && s.pcs[t].Allocate?
    ensures HasHeight(Step(s, t, Tick(height, false)), t, from, height)
  {
    var pc := s.pcs[t];
    assert Step(s, t, Tick(height, false)) == StepAllocate(s, t, pc.key, pc.value, pc.found, pc.height);
  }

  /** No other step allocates, and a height is drawn only as the step is told. */
  ghost predicate DrawsNone(s: State, s': State, t: nat, height: nat) {
    && Running(s, t) && Running(s', t) && s'.h.nodes == s.h.nodes
    && (s'.pcs[t].Raise? || s'.pcs[t].Allocate? ==>
          s'.pcs[t].height == height || (s.pcs[t].Raise? && s'.pcs[t].height == s.pcs[t].height))
  }

  lemma {:induction false} NodesStay(s: State, t: nat, height: nat)
    requires Running(s, t) && !s.pcs[t].Allocate?
    ensures DrawsNone(s, StepTick(s, t, height, false), t, height)
  {
    var pc := s.pcs[t];
    if pc.SkipDown? {
      SkipDownDrawsNone(s, t, height);
    } else if pc.Walk? {
      WalkDrawsNone(s, t, height);
    } else if pc.Cas? {
      LinkKeepsNodes(s.h, pc.level, Pred(pc.ctx, pc.level), pc.node);
    }
  }

  lemma {:induction false} SkipDownDrawsNone(s: State, t: nat, height: nat)
    requires Running(s, t) && s.pcs[t].SkipDown?
    ensures DrawsNone(s, StepTick(s, t, height, false), t, height)
  {
  }

  lemma {:induction false} WalkDrawsNone(s: State, t: nat, height: nat)
    requires Running(s, t) && s.pcs[t].Walk?
    ensures DrawsNone(s, StepTick(s, t, height, false), t, height)
  {
  }

  lemma {:induction false} CallKeepsHeight(less: Less, threads: nat, schedule: Schedule, t: nat, op: Op, height: nat,
                                           k: nat)
    requires var s := Run(less, threads, schedule); Running(s, t) && s.pcs[t].Idle?
    ensures var s, s' := Run(less, threads, schedule), Run(less, threads, CallAlone(schedule, t, op, height, k));
      HasHeight(s', t, |s.h.nodes|, height)
  {
    var called := schedule + [(t, Call(op))];
    if k == 0 {
      assert CallAlone(schedule, t, op, height, k) == called;
      RunAppend(less, threads, schedule, t, Call(op));
    } else {
      CallKeepsHeight(less, threads, schedule, t, op, height, k - 1);
      AloneSnoc(less, threads, called, t, height, k - 1);
      TickKeepsHeight(Run(less, threads, CallAlone(schedule, t, op, height, k - 1)), t,
                      |Run(less, threads, schedule).h.nodes|, height);
    }
  }

  // ---------- Each operation ----------

  /** Left alone, an insert by either path ends idle with its entry logged as inserted, and its node, new, with
      its key and value and the height drawn, on every level below that height. */
  lemma {:induction false} InsertCompletes(less: Less, threads: nat, schedule: Schedule, t: nat, op: Op, height: nat)
    returns (k: nat, n: nat)
    requires StrictWeakOrder(less) && t < threads && 1 <= height <= 8 && (op.OpInsert? || op.OpInsertWith?)
    requires var s := Run(less, threads, schedule); Running(s, t) && s.pcs[t].Idle?
    ensures var s, s' := Run(less, threads, schedule), Run(less, threads, CallAlone(schedule, t, op, height, k));
      && Running(s', t) && s'.pcs[t].Idle?
      && s'.log == s.log + [Inserted(t, Entry(op.key, op.value))]
      && Holds(s'.h, n, op.key, op.value, |s.h.nodes|) && s'.h.nodes[n].height == height && OnItsLevels(s'.h, n)
  {
    k := CallRuns(less, threads, schedule, t, op, height);
    var all := CallAlone(schedule, t, op, height, k);
    CallIsFollowed(less, threads, all, t, |schedule|, op);
    CallLogs(less, threads, schedule, t, op, height, k);
    n := InsertLinksItsNode(less, threads, all, t, |schedule|, op);
    CallKeepsHeight(less, threads, schedule, t, op, height, k);
  }

  /** Left alone, a lookup ends idle with the first entry not before its key logged as its answer. */
  lemma {:induction false} LookupCompletes(less: Less, threads: nat, schedule: Schedule, t: nat, key: Bytes,
                                           height: nat) returns (k: nat)
    requires StrictWeakOrder(less) && t < threads && 1 <= height <= MAX_HEIGHT
    requires var s := Run(less, threads, schedule); Running(s, t) && s.pcs[t].Idle?
    ensures var s := Run(less, threads, schedule);
      var s' := Run(less, threads, CallAlone(schedule, t, OpLookup(key), height, k));
      && Running(s', t) && s'.pcs[t].Idle? && Readable(s.h)
      && s'.log == s.log + [LookedUp(t, key, SpecLookup(less, Content(s.h), key))]
  {
    k := CallRuns(less, threads, schedule, t, OpLookup(key), height);
    var all := CallAlone(schedule, t, OpLookup(key), height, k);
    CallIsFollowed(less, threads, all, t, |schedule|, OpLookup(key));
    FindLogs(less, threads, schedule, t, OpLookup(key), height, k);
  }

  /** The contents can be read off. */
  ghost predicate Readable(h: Heap) { Shape(h) && RowOk(h, 0) }

  lemma {:induction false} FindLogs(less: Less, threads: nat, schedule: Schedule, t: nat, op: Op, height: nat, k: nat)
    requires StrictWeakOrder(less) && t < threads && (op.OpLookup? || op.OpSeek?)
    requires var s := Run(less, threads, schedule); Running(s, t) && s.pcs[t].Idle?
    requires DoneAfter(less, threads, CallAlone(schedule, t, op, height, k), t)
    ensures var s, s' := Run(less, threads, schedule), Run(less, threads, CallAlone(schedule, t, op, height, k));
      Readable(s.h) && s'.log == s.log + [LookedUp(t, op.key, SpecLookup(less, Content(s.h), op.key))]
  {
    CallLogs(less, threads, schedule, t, op, height, k);
    RunsAreLinearizable(less, threads, schedule);
    RunsAreLinearizable(less, threads, CallAlone(schedule, t, op, height, k));
    var log, log' := Run(less, threads, schedule).log, Run(less, threads, CallAlone(schedule, t, op, height, k)).log;
    OneAnswer(less, log, log', t, op.key);
  }

  lemma {:induction false} OneAnswer(less: Less, log: seq<Event>, log': seq<Event>, t: nat, key: Bytes)
    requires Replay(less, log).Some? && Replay(less, log').Some? && log <= log' && |log'| == |log| + 1
    requires log'[|log|].tid == t && EventJob(log'[|log|]) == Find(key)
    ensures log' == log + [LookedUp(t, key, SpecLookup(less, Replay(less, log).value, key))]
  {
    assert log' == log + [log'[|log|]];
    AnswerIsLegal(less, log, log'[|log|], key);
  }

  lemma {:induction false} AnswerIsLegal(less: Less, log: seq<Event>, e: Event, key: Bytes)
    requires Replay(less, log).Some? && Replay(less, log + [e]).Some? && EventJob(e) == Find(key)
    ensures e == LookedUp(e.tid, key, SpecLookup(less, Replay(less, log).value, key))
  {
    ReplayAppend(less, log, e);
  }

  /** Left alone, a seek ends in an iterator with its key for a bound, its first entry logged; and opening an
      iterator at the first entry logs nothing. */
  lemma {:induction false} SeekCompletes(less: Less, threads: nat, schedule: Schedule, t: nat, key: Bytes, height: nat)
    returns (k: nat)
    requires StrictWeakOrder(less) && t < threads && 1 <= height <= MAX_HEIGHT
    requires var s := Run(less, threads, schedule); Running(s, t) && s.pcs[t].Idle?
    ensures var s := Run(less, threads, schedule);
      var s' := Run(less, threads, CallAlone(schedule, t, OpSeek(key), height, k));
      && Running(s', t) && s'.pcs[t].Cursor? && s'.pcs[t].from == Some(key) && Readable(s.h)
      && s'.log == s.log + [LookedUp(t, key, SpecLookup(less, Content(s.h), key))]
  {
    k := CallRuns(less, threads, schedule, t, OpSeek(key), height);
    var all := CallAlone(schedule, t, OpSeek(key), height, k);
    CallIsFollowed(less, threads, all, t, |schedule|, OpSeek(key));
    FindLogs(less, threads, schedule, t, OpSeek(key), height, k);
  }

  lemma {:induction false} FirstCompletes(less: Less, threads: nat, schedule: Schedule, t: nat)
    requires StrictWeakOrder(less) && t < threads
    requires var s := Run(less, threads, schedule); Running(s, t) && s.pcs[t].Idle?
    ensures var s, s' := Run(less, threads, schedule), Run(less, threads, CallAlone(schedule, t, OpFirst, 1, 0));
      Running(s', t) && s'.pcs[t].Cursor? && s'.pcs[t].from == None && s'.log == s.log
  {
    var all := CallAlone(schedule, t, OpFirst, 1, 0);
    assert all == schedule + [(t, Call(OpFirst))];
    assert all[..|schedule|] == schedule;
    CallIsFollowed(less, threads, all, t, |schedule|, OpFirst);
    CallLogs(less, threads, schedule, t, OpFirst, 1, 0);
  }

  /** From every reachable state a thread left alone ends up having logged all it was asked for. */
  lemma {:induction false} PendingCompletes(less: Less, threads: nat, schedule: Schedule, t: nat, height: nat)
    returns (k: nat)
    requires StrictWeakOrder(less) && t < threads && 1 <= height <= MAX_HEIGHT
    ensures var s' := Run(less, threads, schedule + Alone(t, height, k));
      Running(s', t) && Done(s'.pcs[t]) && JobsOf(s'.log, t) == Asked(less, threads, schedule, t)
  {
    k := AnswerComes(less, threads, schedule, t, height, 0);
    RunsAreLinearizable(less, threads, schedule + Alone(t, height, k));
    AskedAlone(less, threads, schedule, t, height, k);
  }
}
