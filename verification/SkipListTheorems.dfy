/** What holds of every run of the concurrent skip list, for every comparator that is a strict weak
    order, any number of threads and any interleaving. */
module SkipListTheorems {
  import opened Basics
  import opened Lists
  import opened SkipListHeap
  import opened SkipListMachine
  import opened SkipListSpec
  import opened SkipListInvariant
  import opened SkipListSteps

  lemma {:induction false} InitKeeps(less: Less, threads: nat)
    requires StrictWeakOrder(less)
    ensures StateInv(InitState(less, threads))
  {
    EmptyHeapInv(less);
    var s := InitState(less, threads);
    assert RowOk(s.h, 0);
    assert Content(s.h) == [];
  }

  /** Every reachable state satisfies the invariant. */
  lemma {:induction false} RunKeeps(less: Less, threads: nat, schedule: Schedule)
    requires StrictWeakOrder(less)
    ensures StateInv(Run(less, threads, schedule))
  {
    if schedule == [] {
      InitKeeps(less, threads);
    } else {
      var before := schedule[..|schedule| - 1];
      var last := schedule[|schedule| - 1];
      RunKeeps(less, threads, before);
      StepKeeps(Run(less, threads, before), last.0, last.1);
    }
  }

  lemma {:induction false} RunAppend(less: Less, threads: nat, schedule: Schedule, t: nat, a: Action)
    ensures Run(less, threads, schedule + [(t, a)]) == Step(Run(less, threads, schedule), t, a)
  {
    assert (schedule + [(t, a)])[..|schedule|] == schedule;
  }

  // ---------- What a step leaves alone ----------

  /** Thread `t` went from `s` to `s'` by action `a`: the comparator and the other threads are as before; a
      search it began took note of the links made by others; its links are the links made, and rows change
      only by a link; at most one event was logged, in its name; and it called what the action asked for. */
  ghost predicate StepOf(s: State, s': State, t: nat, a: Action) {
    && Running(s, t) && Running(s', t) && s'.h.less == s.h.less
    && |s'.pcs| == |s.pcs| && s'.pcs == s.pcs[t := s'.pcs[t]]
    && |s'.tallies| == |s.tallies| && s'.tallies == s.tallies[t := s'.tallies[t]]
    && (s'.tallies[t].mark == s.tallies[t].mark || s'.tallies[t].mark == Others(s, t))
    && s'.links - s.links == s'.tallies[t].own - s.tallies[t].own
    && (if s'.links == s.links then s'.h.rows == s.h.rows else s'.links == s.links + 1)
    && (s'.log == s.log || (|s'.log| == |s.log| + 1 && s'.log[..|s.log|] == s.log && s'.log[|s.log|].tid == t))
    && s'.tallies[t].calls == s.tallies[t].calls + JobsTaken(s.pcs[t], a)
    && s.h.nodes <= s'.h.nodes
  }

  /** What an idle thread that takes a call asks for, by operation; opening an iterator at the first entry asks
      for nothing that would take effect later. */
  ghost function JobsTaken(pc: Pc, a: Action): seq<Job> {
    if !(a.Call? && pc.Idle?) then []
    else
      match a.op
      case OpInsert(key, value) => [Add(Entry(key, value))]
      case OpInsertWith(key, value) => [Add(Entry(key, value))]
      case OpLookup(key) => [Find(key)]
      case OpSeek(key) => [Find(key)]
      case OpFirst => []
  }

  lemma {:induction false} CallIsStep(s: State, t: nat, op: Op)
    requires Running(s, t) && s.pcs[t].Idle?
    ensures StepOf(s, StepCall(s, t, op), t, Call(op))
  {
  }

  lemma {:induction false} EndSearchIsStep(s: State, t: nat, key: Bytes, goal: Goal, ctx: Ctx, a: Action)
    requires Running(s, t) && a.Tick?
    ensures StepOf(s, EndSearch(s, t, key, goal, ctx), t, a)
  {
  }

  lemma {:induction false} SkipDownIsStep(s: State, t: nat, key: Bytes, goal: Goal, level: nat, a: Action)
    requires Running(s, t) && a.Tick?
    ensures StepOf(s, StepSkipDown(s, t, key, goal, level), t, a)
  {
    EndSearchIsStep(s, t, key, goal, FreshCtx(), a);
  }

  lemma {:induction false} WalkIsStep(s: State, t: nat, key: Bytes, goal: Goal, level: nat, pred: int, ctx: Ctx,
                                      a: Action)
    requires Running(s, t) && a.Tick?
    ensures StepOf(s, StepWalk(s, t, key, goal, level, pred, ctx), t, a)
  {
    EndSearchIsStep(s, t, key, goal, Record(ctx, level, pred, Load(s.h, pred, level)), a);
  }

  lemma {:induction false} AllocateIsStep(s: State, t: nat, key: Bytes, value: Bytes, found: Option<Ctx>,
                                          height: nat, a: Action)
    requires Running(s, t) && a.Tick?
    ensures StepOf(s, StepAllocate(s, t, key, value, found, height), t, a)
  {
  }

  lemma {:induction false} CasIsStep(s: State, t: nat, node: int, level: nat, ctx: Ctx, a: Action)
    requires Running(s, t) && a.Tick?
    ensures StepOf(s, StepCas(s, t, node, level, ctx), t, a)
  {
  }

  lemma {:induction false} GotoIsStep(s: State, t: nat, pc: Pc, a: Action)
    requires Running(s, t) && a.Tick?
    ensures StepOf(s, Goto(s, t, pc), t, a)
  {
  }

  lemma {:induction false} RaiseIsStep(s: State, t: nat, key: Bytes, value: Bytes, found: Option<Ctx>, height: nat,
                                       seen: nat,
                                      spurious: bool, a: Action)
    requires Running(s, t) && a.Tick?
    ensures StepOf(s, StepRaise(s, t, key, value, found, height, seen, spurious), t, a)
  {
  }

  lemma {:induction false} StoreIsStep(s: State, t: nat, node: int, level: nat, ctx: Ctx, a: Action)
    requires Running(s, t) && a.Tick?
    ensures StepOf(s, StepStore(s, t, node, level, ctx), t, a)
  {
  }

  lemma {:induction false} CursorIsStep(s: State, t: nat, from: Option<Bytes>, current: int, visited: seq<int>,
                                        must: set<int>, a: Action)
    requires Running(s, t) && a.Tick?
    ensures StepOf(s, StepCursor(s, t, from, current, visited, must), t, a)
  {
  }

  /** Steps before a node exists. */
  lemma {:induction false} DrawIsStep(s: State, t: nat, height: nat, spurious: bool)
    requires Running(s, t) && (s.pcs[t].Idle? || s.pcs[t].LoadMax? || s.pcs[t].Draw? || s.pcs[t].Raise?)
    ensures StepOf(s, StepTick(s, t, height, spurious), t, Tick(height, spurious))
  {
    var a := Tick(height, spurious);
    match s.pcs[t]
    case Idle =>
    case LoadMax(key, goal) => GotoIsStep(s, t, SkipDown(key, goal, s.h.maxLevel), a);
    case Draw(key, value, found) => GotoIsStep(s, t, RaiseOrAllocate(key, value, found, height, s.h.maxLevel), a);
    case Raise(key, value, found, h, seen) => RaiseIsStep(s, t, key, value, found, h, seen, spurious, a);
  }

  lemma {:induction false} TraverseIsStep(s: State, t: nat, height: nat, spurious: bool)
    requires Running(s, t) && (s.pcs[t].SkipDown? || s.pcs[t].Walk? || s.pcs[t].Cursor?)
    ensures StepOf(s, StepTick(s, t, height, spurious), t, Tick(height, spurious))
  {
    var a := Tick(height, spurious);
    match s.pcs[t]
    case SkipDown(key, goal, level) => SkipDownIsStep(s, t, key, goal, level, a);
    case Walk(key, goal, level, pred, ctx) => WalkIsStep(s, t, key, goal, level, pred, ctx, a);
    case Cursor(from, current, visited, must) => CursorIsStep(s, t, from, current, visited, must, a);
  }

  lemma {:induction false} TickIsStep(s: State, t: nat, height: nat, spurious: bool)
    requires Running(s, t)
    ensures StepOf(s, StepTick(s, t, height, spurious), t, Tick(height, spurious))
  {
    var a := Tick(height, spurious);
    if s.pcs[t].SkipDown? || s.pcs[t].Walk? || s.pcs[t].Cursor? {
      TraverseIsStep(s, t, height, spurious);
    } else if s.pcs[t].Idle? || s.pcs[t].LoadMax? || s.pcs[t].Draw? || s.pcs[t].Raise? {
      DrawIsStep(s, t, height, spurious);
    } else {
      match s.pcs[t]
      case Store(node, level, ctx) => StoreIsStep(s, t, node, level, ctx, a);
      case Allocate(key, value, found, h) => AllocateIsStep(s, t, key, value, found, h, a);
      case Cas(node, level, ctx) => CasIsStep(s, t, node, level, ctx, a);
    }
  }

  lemma {:induction false} StepIsStep(s: State, t: nat, a: Action)
    requires Running(s, t)
    ensures StepOf(s, Step(s, t, a), t, a)
  {
    match a
    case Call(op) => if s.pcs[t].Idle? { CallIsStep(s, t, op); }
    case Tick(height, spurious) => TickIsStep(s, t, height, spurious);
    case Close =>
  }

  lemma {:induction false} StepFixes(s: State, t: nat, a: Action)
    ensures var s' := Step(s, t, a);
      s'.h.less == s.h.less && |s'.pcs| == |s.pcs| && |s'.tallies| == |s.tallies|
  {
    if Running(s, t) {
      StepIsStep(s, t, a);
    }
  }

  /** The comparator and the number of threads never change. */
  lemma {:induction false} RunFixes(less: Less, threads: nat, schedule: Schedule)
    ensures var s := Run(less, threads, schedule);
      s.h.less == less && |s.pcs| == |s.tallies| == threads
  {
    if schedule != [] {
      var last := schedule[|schedule| - 1];
      RunFixes(less, threads, schedule[..|schedule| - 1]);
      StepFixes(Run(less, threads, schedule[..|schedule| - 1]), last.0, last.1);
    }
  }

  // ---------- The shape of every level ----------

  /** The node reached from the sentinel by following `k` pointers at `level`, or null. */
  ghost function Chase(h: Heap, level: int, k: nat): int {
    if k == 0 then HEAD else Load(h, Chase(h, level, k - 1), level)
  }

  lemma {:induction false} ChaseIsRow(h: Heap, level: int, k: nat)
    requires Inv(h) && 0 <= level < MAX_HEIGHT
    ensures Chase(h, level, k) == if k < |h.rows[level]| then h.rows[level][k] else NULL
  {
    assert RowOk(h, level);
    if k > 0 {
      ChaseIsRow(h, level, k - 1);
      if k - 1 < |h.rows[level]| {
        assert PointsOn(h, level, h.rows[level], k - 1);
      }
    }
  }

  /** Following the pointers of `level` visits `len` distinct nodes, within their towers, in key
      order, and ends in null; and each of them is visited at the level below too. */
  ghost predicate SortedChain(h: Heap, level: int, len: nat) {
    && Chase(h, level, 0) == HEAD && Chase(h, level, len) == NULL
    && (forall i: nat | i < len :: InTower(h, Chase(h, level, i), level))
    && (forall i: nat, j: nat | i < j < len :: Chase(h, level, i) != Chase(h, level, j))
    && (forall i: nat, j: nat | 1 <= i < j < len ::
          !h.less(KeyOf(h, Chase(h, level, j)), KeyOf(h, Chase(h, level, i))))
    && (level > 0 ==> forall i: nat | i < len :: VisitedAt(h, level - 1, Chase(h, level, i)))
  }

  ghost predicate VisitedAt(h: Heap, level: int, n: int) {
    exists k: nat :: Chase(h, level, k) == n
  }

  lemma {:induction false} RowIsSortedChain(h: Heap, level: int)
    requires Inv(h) && 0 <= level < MAX_HEIGHT
    ensures SortedChain(h, level, |h.rows[level]|)
  {
    var row := h.rows[level];
    assert RowOk(h, level);
    ChaseIsRow(h, level, |row|);
    forall i: nat | i < |row|
      ensures Chase(h, level, i) == row[i] && InTower(h, Chase(h, level, i), level)
    {
      ChaseIsRow(h, level, i);
    }
    forall i: nat, j: nat | i < j < |row|
      ensures Chase(h, level, i) != Chase(h, level, j)
      ensures 1 <= i ==> !h.less(KeyOf(h, Chase(h, level, j)), KeyOf(h, Chase(h, level, i)))
    {
      assert Apart(row, i, j);
      assert 1 <= i ==> InOrder(h, row, i, j);
    }
    if level > 0 {
      forall i: nat | i < |row|
        ensures VisitedAt(h, level - 1, Chase(h, level, i))
      {
        assert RowBelow(h, level) && row[i] in row;
        var k := Position(h.rows[level - 1], row[i]);
        ChaseIsRow(h, level - 1, k);
        assert Chase(h, level - 1, k) == Chase(h, level, i);
      }
    }
  }

  /** At every level of every reachable state the pointers form a finite acyclic sorted list, and a
      node on it is on every level below. */
  lemma {:induction false} EveryLevelIsASortedChain(less: Less, threads: nat, schedule: Schedule, level: int)
    requires StrictWeakOrder(less) && 0 <= level < MAX_HEIGHT
    ensures exists len: nat :: SortedChain(Run(less, threads, schedule).h, level, len)
  {
    RunKeeps(less, threads, schedule);
    RowIsSortedChain(Run(less, threads, schedule).h, level);
  }

  /** No thread's next step touches a tower at or above the height of the node it touches. */
  lemma {:induction false} EveryAccessIsInTower(less: Less, threads: nat, schedule: Schedule, t: nat)
    requires StrictWeakOrder(less) && t < threads
    ensures var s := Run(less, threads, schedule);
      && Running(s, t)
      && (Touches(s.h, s.pcs[t]).Some? ==> var c := Touches(s.h, s.pcs[t]).value; InTower(s.h, c.0, c.1))
  {
    RunKeeps(less, threads, schedule);
    RunFixes(less, threads, schedule);
    assert ThreadInv(Run(less, threads, schedule), t);
    var s := Run(less, threads, schedule);
    if Touches(s.h, s.pcs[t]).Some? {
      TouchIsInTower(s.h, s.pcs[t]);
    }
  }

  lemma {:induction false} TouchIsInTower(h: Heap, pc: Pc)
    requires Inv(h) && PcInv(h, pc) && Touches(h, pc).Some?
    ensures var c := Touches(h, pc).value; InTower(h, c.0, c.1)
  {
    match pc
    case Walk(key, goal, level, pred, ctx) => WalkLoads(h, key, goal, level, pred);
    case Cas(node, level, ctx) =>
      assert CtxAt(h, h.nodes[node].key, ctx, level) && RowOk(h, level);
      var p := Position(h.rows[level], Pred(ctx, level));
    case Cursor(from, current, visited, must) => assert Yielded(h, from, visited[|visited| - 1]);
    case _ =>
  }

  // ---------- Linearizability ----------

  /** What the schedule asks of thread `t`, call by call: each call that finds the thread idle. */
  ghost function Asked(less: Less, threads: nat, schedule: Schedule, t: nat): seq<Job> {
    if schedule == [] then []
    else
      var before, last := schedule[..|schedule| - 1], schedule[|schedule| - 1];
      var s := Run(less, threads, before);
      Asked(less, threads, before, t) + (if last.0 == t && Running(s, t) then JobsTaken(s.pcs[t], last.1) else [])
  }

  lemma {:induction false} StepAsks(s: State, u: nat, a: Action, t: nat)
    requires Running(s, t)
    ensures var s' := Step(s, u, a);
      && Running(s', t)
      && s'.tallies[t].calls == s.tallies[t].calls + (if u == t then JobsTaken(s.pcs[t], a) else [])
  {
    if Running(s, u) {
      StepIsStep(s, u, a);
    }
  }

  /** A thread's calls are what the schedule asks of it. */
  lemma {:induction false} CallsAreAsked(less: Less, threads: nat, schedule: Schedule, t: nat)
    requires t < threads
    ensures var s := Run(less, threads, schedule);
      Running(s, t) && s.tallies[t].calls == Asked(less, threads, schedule, t)
  {
    RunFixes(less, threads, schedule);
    if schedule != [] {
      var before, last := schedule[..|schedule| - 1], schedule[|schedule| - 1];
      CallsAreAsked(less, threads, before, t);
      StepAsks(Run(less, threads, before), last.0, last.1, t);
    }
  }

  /** The log is a legal sequential history that ends in the list's contents, and for every thread
      it holds what the schedule asked of it in program order, each exactly once, missing at most the one in
      progress. */
  lemma {:induction false} RunsAreLinearizable(less: Less, threads: nat, schedule: Schedule)
    requires StrictWeakOrder(less)
    ensures var s := Run(less, threads, schedule);
      && Inv(s.h) && RowOk(s.h, 0) && Replay(less, s.log) == Some(Content(s.h))
      && (forall t: nat | t < threads ::
            && Running(s, t)
            && JobsOf(s.log, t) <= Asked(less, threads, schedule, t)
            && |Asked(less, threads, schedule, t)| <= |JobsOf(s.log, t)| + 1
            && (s.pcs[t].Idle? || s.pcs[t].Cursor? ==> JobsOf(s.log, t) == Asked(less, threads, schedule, t)))
  {
    RunKeeps(less, threads, schedule);
    RunFixes(less, threads, schedule);
    var s := Run(less, threads, schedule);
    forall t: nat | t < threads
      ensures Running(s, t)
      ensures JobsOf(s.log, t) <= s.tallies[t].calls && |s.tallies[t].calls| <= |JobsOf(s.log, t)| + 1
      ensures s.pcs[t].Idle? || s.pcs[t].Cursor? ==> JobsOf(s.log, t) == s.tallies[t].calls
      ensures s.tallies[t].calls == Asked(less, threads, schedule, t)
    {
      JobsAreCalls(s, t);
      CallsAreAsked(less, threads, schedule, t);
    }
  }

  /** A step adds at most one event to the log, and only on behalf of the thread that takes it: an
      operation takes effect between its call and its return. */
  lemma {:induction false} StepsLogTheirOwnThread(s: State, t: nat, a: Action)
    ensures var s' := Step(s, t, a);
      s'.log == s.log || (|s'.log| == |s.log| + 1 && s'.log[..|s.log|] == s.log && s'.log[|s.log|].tid == t)
  {
    if Running(s, t) {
      StepIsStep(s, t, a);
    }
  }

  /** Earlier events stay where they are. */
  lemma {:induction false} LogOnlyGrows(less: Less, threads: nat, schedule: Schedule, i: nat)
    requires i <= |schedule|
    ensures Run(less, threads, schedule[..i]).log <= Run(less, threads, schedule).log
  {
    if i == |schedule| {
      assert schedule[..i] == schedule;
    } else {
      var before := schedule[..|schedule| - 1];
      var last := schedule[|schedule| - 1];
      assert schedule[..i] == before[..i];
      LogOnlyGrows(less, threads, before, i);
      StepsLogTheirOwnThread(Run(less, threads, before), last.0, last.1);
    }
  }

  lemma {:induction false} JobsPrefix(log: seq<Event>, k: nat, t: nat)
    requires k <= |log|
    ensures JobsOf(log[..k], t) <= JobsOf(log, t)
  {
    if k == |log| {
      assert log[..k] == log;
    } else {
      var before := log[..|log| - 1];
      assert log[..k] == before[..k];
      JobsPrefix(before, k, t);
    }
  }

  /** Position `k` of the log is where call number `n` of thread `t` took effect. */
  ghost predicate TookEffectAt(log: seq<Event>, t: nat, n: nat, k: nat) {
    k < |log| && log[k].tid == t && |JobsOf(log[..k], t)| == n
  }

  /** An event of the log is among the jobs of its thread. */
  lemma {:induction false} JobsHave(log: seq<Event>, t: nat, k: nat) returns (i: nat)
    requires k < |log| && log[k].tid == t
    ensures i < |JobsOf(log, t)| && JobsOf(log, t)[i] == EventJob(log[k]) && TookEffectAt(log, t, i, k)
  {
    assert log[..k + 1][..k] == log[..k];
    i := |JobsOf(log[..k], t)|;
    JobsPrefix(log, k + 1, t);
  }

  /** Call number `n` of a thread that has been asked `asked` and is now at `pc` has returned: the thread has
      called again since, or is not in a call. */
  ghost predicate Returned(asked: seq<Job>, pc: Pc, n: nat) {
    n < |asked| && (n + 1 < |asked| || pc.Idle? || pc.Cursor?)
  }

  /** Operations take effect in real-time order: a call that has returned took effect, as itself, before any
      call made later, by whichever threads. */
  lemma {:induction false} RealTimeOrder(less: Less, threads: nat, schedule: Schedule, i: nat,
                                        t: nat, n: nat, u: nat, m: nat, l: nat)
    requires StrictWeakOrder(less) && i <= |schedule| && t < threads && u < threads
    requires var s := Run(less, threads, schedule[..i]);
      && Running(s, t) && Running(s, u) && Returned(Asked(less, threads, schedule[..i], t), s.pcs[t], n)
      && m >= |Asked(less, threads, schedule[..i], u)|
    requires TookEffectAt(Run(less, threads, schedule).log, u, m, l)
    ensures var s, log := Run(less, threads, schedule[..i]), Run(less, threads, schedule).log;
      && |s.log| <= l
      && exists k: nat | k < |s.log| ::
           TookEffectAt(log, t, n, k) && EventJob(log[k]) == Asked(less, threads, schedule[..i], t)[n]
  {
    var s := Run(less, threads, schedule[..i]);
    CallsAreAsked(less, threads, schedule[..i], t);
    CallsAreAsked(less, threads, schedule[..i], u);
    RunKeeps(less, threads, schedule[..i]);
    LogOnlyGrows(less, threads, schedule, i);
    JobsAreCalls(s, t);
    JobsAreCalls(s, u);
    LogSeparates(s.log, Run(less, threads, schedule).log, t, n, u, m, l);
  }

  lemma {:induction false} JobsAreCalls(s: State, t: nat)
    requires StateInv(s) && Running(s, t)
    ensures JobsOf(s.log, t) <= s.tallies[t].calls && |s.tallies[t].calls| <= |JobsOf(s.log, t)| + 1
    ensures s.pcs[t].Idle? || s.pcs[t].Cursor? ==> JobsOf(s.log, t) == s.tallies[t].calls
  {
    assert ThreadInv(s, t);
  }

  /** A longer log holds the effects of the shorter one at their places, and any further one past it. */
  lemma {:induction false} LogSeparates(log: seq<Event>, log': seq<Event>, t: nat, n: nat, u: nat, m: nat, l: nat)
    requires log <= log' && n < |JobsOf(log, t)| && |JobsOf(log, u)| <= m && TookEffectAt(log', u, m, l)
    ensures |log| <= l
    ensures exists k: nat | k < |log| :: TookEffectAt(log', t, n, k) && EventJob(log'[k]) == JobsOf(log, t)[n]
  {
    EffectExists(log, t, n);
    var k: nat :| k < |log| && TookEffectAt(log, t, n, k) && EventJob(log[k]) == JobsOf(log, t)[n];
    assert log'[..k] == log[..k];
    assert TookEffectAt(log', t, n, k);
    if l < |log| {
      assert log'[..l] == log[..l];
      var j := JobsHave(log, u, l);
    }
  }

  lemma {:induction false} EffectExists(log: seq<Event>, t: nat, n: nat)
    requires n < |JobsOf(log, t)|
    ensures exists k: nat | k < |log| :: TookEffectAt(log, t, n, k) && EventJob(log[k]) == JobsOf(log, t)[n]
  {
    var last := |log| - 1;
    var before := log[..last];
    if n < |JobsOf(before, t)| {
      EffectExists(before, t, n);
      var k: nat :| k < |before| && TookEffectAt(before, t, n, k) && EventJob(before[k]) == JobsOf(before, t)[n];
      assert before[..k] == log[..k];
      assert TookEffectAt(log, t, n, k);
    } else {
      assert TookEffectAt(log, t, n, last);
    }
  }

  lemma {:induction false} StepLogsThreads(s: State, t: nat, a: Action, threads: nat)
    requires |s.pcs| == |s.tallies| == threads
    ensures var log' := Step(s, t, a).log;
      |s.log| <= |log'| && log'[..|s.log|] == s.log && forall k | |s.log| <= k < |log'| :: log'[k].tid < threads
  {
    if Running(s, t) {
      StepIsStep(s, t, a);
    }
  }

  /** Only threads of the run log events. */
  lemma {:induction false} LogHasThreads(less: Less, threads: nat, schedule: Schedule, k: nat)
    requires k < |Run(less, threads, schedule).log|
    ensures Run(less, threads, schedule).log[k].tid < threads
  {
    if schedule != [] {
      var before, last := schedule[..|schedule| - 1], schedule[|schedule| - 1];
      RunFixes(less, threads, before);
      StepLogsThreads(Run(less, threads, before), last.0, last.1, threads);
      if k < |Run(less, threads, before).log| {
        LogHasThreads(less, threads, before, k);
      }
    }
  }

  ghost predicate SortedEntries(less: Less, c: seq<Entry>) {
    forall i, j | 0 <= i < j < |c| :: !less(c[j].key, c[i].key)
  }

  lemma {:induction false} ContentIsSorted(h: Heap)
    requires Inv(h)
    ensures RowOk(h, 0) && SortedEntries(h.less, Content(h))
  {
    assert RowOk(h, 0);
    var c := Content(h);
    forall i, j | 0 <= i < j < |c|
      ensures !h.less(c[j].key, c[i].key)
    {
      assert InOrder(h, h.rows[0], i + 1, j + 1);
    }
  }

  lemma {:induction false} LowerBoundSplits(less: Less, c: seq<Entry>, key: Bytes)
    requires StrictWeakOrder(less) && SortedEntries(less, c)
    ensures var p := LowerBound(less, c, key);
      && (forall i | 0 <= i < p :: less(c[i].key, key))
      && (forall i | p <= i < |c| :: !less(c[i].key, key))
  {
    if c == [] {
    } else if less(c[0].key, key) {
      LowerBoundSplits(less, c[1..], key);
      var p := LowerBound(less, c, key);
      forall i | 1 <= i < |c|
        ensures c[i] == c[1..][i - 1]
      {
      }
      assert forall i | 0 <= i < p :: less(c[i].key, key);
    } else {
      forall i | 0 <= i < |c|
        ensures !less(c[i].key, key)
      {
        assert OrderLaws(less, c[i].key, c[0].key, key);
      }
    }
  }

  /** An insert adds exactly its entry, after everything smaller and before everything else, in
      particular before every older entry with an equal key. */
  lemma {:induction false} InsertGoesBeforeEquals(less: Less, c: seq<Entry>, e: Entry)
    requires StrictWeakOrder(less) && SortedEntries(less, c)
    ensures var p := LowerBound(less, c, e.key); var c' := SpecInsert(less, c, e);
      && |c'| == |c| + 1 && c'[p] == e && c'[..p] == c[..p] && c'[p + 1..] == c[p..]
      && (forall i | 0 <= i < p :: less(c'[i].key, e.key))
      && (forall i | p < i < |c'| :: !less(c'[i].key, e.key))
      && multiset(c') == multiset(c) + multiset{e}
  {
    var p := LowerBound(less, c, e.key);
    LowerBoundSplits(less, c, e.key);
    InsertedAt(c, p, e);
  }

  lemma {:induction false} InsertedAt(c: seq<Entry>, p: nat, e: Entry)
    requires p <= |c|
    ensures var c' := c[..p] + [e] + c[p..];
      && |c'| == |c| + 1 && c'[p] == e && c'[..p] == c[..p] && c'[p + 1..] == c[p..]
      && multiset(c') == multiset(c) + multiset{e}
  {
    assert c == c[..p] + c[p..];
  }

  /** An insert keeps the entries sorted. */
  lemma {:induction false} InsertKeepsSorted(less: Less, c: seq<Entry>, e: Entry)
    requires StrictWeakOrder(less) && SortedEntries(less, c)
    ensures SortedEntries(less, SpecInsert(less, c, e))
  {
    var p := LowerBound(less, c, e.key);
    var c' := SpecInsert(less, c, e);
    LowerBoundSplits(less, c, e.key);
    forall i, j | 0 <= i < j < |c'|
      ensures !less(c'[j].key, c'[i].key)
    {
      assert c'[i] == if i < p then c[i] else if i == p then e else c[i - 1];
      assert c'[j] == if j < p then c[j] else if j == p then e else c[j - 1];
      assert OrderLaws(less, c'[i].key, c'[j].key, c'[i].key);
    }
  }

  lemma {:induction false} ReplayIsSorted(less: Less, log: seq<Event>)
    requires StrictWeakOrder(less) && Replay(less, log).Some?
    ensures SortedEntries(less, Replay(less, log).value)
  {
    if log != [] {
      ReplayIsSorted(less, log[..|log| - 1]);
      var e := log[|log| - 1];
      if e.Inserted? {
        InsertKeepsSorted(less, Replay(less, log[..|log| - 1]).value, e.entry);
      }
    }
  }

  /** `c'` is the sorted sequence `c` with `e` added at `p`: after every smaller entry, before every other. */
  ghost predicate LandsAt(less: Less, c: seq<Entry>, e: Entry, p: nat, c': seq<Entry>) {
    && p <= |c| && c' == c[..p] + [e] + c[p..]
    && (forall i | 0 <= i < p :: less(c[i].key, e.key))
    && (forall i | p <= i < |c| :: !less(c[i].key, e.key))
  }

  ghost predicate LandsInOrder(less: Less, c: seq<Entry>, e: Entry, c': seq<Entry>) {
    exists p: nat :: LandsAt(less, c, e, p, c')
  }

  /** In every run, what is linked when an insert takes effect is sorted, and its entry lands before every
      entry linked earlier that is not smaller; and what is linked in the end is sorted. */
  lemma {:induction false} InsertsLandInOrder(less: Less, threads: nat, schedule: Schedule, k: nat)
    requires StrictWeakOrder(less)
    requires k < |Run(less, threads, schedule).log| && Run(less, threads, schedule).log[k].Inserted?
    ensures var log := Run(less, threads, schedule).log;
      && Replay(less, log[..k]).Some? && Replay(less, log[..k + 1]).Some?
      && SortedEntries(less, Replay(less, log[..k]).value)
      && LandsInOrder(less, Replay(less, log[..k]).value, log[k].entry, Replay(less, log[..k + 1]).value)
    ensures var h := Run(less, threads, schedule).h;
      Inv(h) && RowOk(h, 0) && SortedEntries(less, Content(h))
  {
    RunsAreLinearizable(less, threads, schedule);
    RunFixes(less, threads, schedule);
    var s := Run(less, threads, schedule);
    ContentIsSorted(s.h);
    ReplayLands(less, s.log, k);
  }

  lemma {:induction false} ReplayLands(less: Less, log: seq<Event>, k: nat)
    requires StrictWeakOrder(less) && Replay(less, log).Some? && k < |log| && log[k].Inserted?
    ensures Replay(less, log[..k]).Some? && Replay(less, log[..k + 1]).Some?
    ensures SortedEntries(less, Replay(less, log[..k]).value)
    ensures LandsInOrder(less, Replay(less, log[..k]).value, log[k].entry, Replay(less, log[..k + 1]).value)
  {
    ReplayPrefix(less, log, k);
    ReplayIsSorted(less, log[..k]);
    assert log[..k] + [log[k]] == log[..k + 1];
    ReplayAppend(less, log[..k], log[k]);
    var c, e := Replay(less, log[..k]).value, log[k].entry;
    LowerBoundSplits(less, c, e.key);
    assert LandsAt(less, c, e, LowerBound(less, c, e.key), SpecInsert(less, c, e));
  }

  // ---------- Lock-free progress ----------

  ghost function SumOwn(tallies: seq<Tally>): nat {
    if tallies == [] then 0 else SumOwn(tallies[..|tallies| - 1]) + tallies[|tallies| - 1].own
  }

  lemma {:induction false} SumOwnUpdate(tallies: seq<Tally>, t: nat, tally: Tally)
    requires t < |tallies|
    ensures SumOwn(tallies[t := tally]) + tallies[t].own == SumOwn(tallies) + tally.own
  {
    var last := |tallies| - 1;
    if t == last {
      assert tallies[t := tally][..last] == tallies[..last];
    } else {
      assert tallies[t := tally][..last] == tallies[..last][t := tally];
      SumOwnUpdate(tallies[..last], t, tally);
    }
  }

  lemma {:induction false} SumOwnZero(threads: nat, tallies: seq<Tally>)
    requires |tallies| == threads && forall i | 0 <= i < threads :: tallies[i].own == 0
    ensures SumOwn(tallies) == 0
  {
    if threads > 0 {
      SumOwnZero(threads - 1, tallies[..threads - 1]);
    }
  }

  lemma {:induction false} StepCountsLinks(s: State, t: nat, a: Action)
    requires SumOwn(s.tallies) == s.links
    ensures SumOwn(Step(s, t, a).tallies) == Step(s, t, a).links
  {
    var s' := Step(s, t, a);
    if Running(s, t) {
      StepIsStep(s, t, a);
      SumOwnUpdate(s.tallies, t, s'.tallies[t]);
    }
  }

  lemma {:induction false} LinksAreOwned(less: Less, threads: nat, schedule: Schedule)
    ensures var s := Run(less, threads, schedule); SumOwn(s.tallies) == s.links
  {
    if schedule == [] {
      SumOwnZero(threads, InitState(less, threads).tallies);
    } else {
      LinksAreOwned(less, threads, schedule[..|schedule| - 1]);
      StepCountsLinks(Run(less, threads, schedule[..|schedule| - 1]), schedule[|schedule| - 1].0,
          schedule[|schedule| - 1].1);
    }
  }

  /** In every run, the link attempts a thread has lost number at most the links other threads have
      won.  The charge is one to one: a failed attempt implies a link by another thread since the
      thread's last search began, and the next search starts a new account. */
  lemma {:induction false} FailuresAreCharged(less: Less, threads: nat, schedule: Schedule, t: nat)
    requires StrictWeakOrder(less) && t < threads
    ensures var s := Run(less, threads, schedule);
      && Running(s, t)
      && s.tallies[t].fails <= SumOwn(s.tallies) - s.tallies[t].own
      && (AboutToFail(s, t) ==> s.tallies[t].fails <= s.tallies[t].mark < SumOwn(s.tallies) - s.tallies[t].own)
  {
    RunKeeps(less, threads, schedule);
    RunFixes(less, threads, schedule);
    LinksAreOwned(less, threads, schedule);
    var s := Run(less, threads, schedule);
    assert ThreadInv(s, t);
    if s.pcs[t].Cas? {
      assert FreshFrom(s.h, s.pcs[t].ctx, s.pcs[t].level) ==> FreshAt(s.h, s.pcs[t].ctx, s.pcs[t].level);
    }
  }

  /** Step `i` of the run is a lost compare-exchange of thread `t`. */
  ghost predicate FailsAt(less: Less, threads: nat, schedule: Schedule, t: nat, i: nat)
    requires i < |schedule|
  {
    schedule[i].0 == t && schedule[i].1.Tick? && AboutToFail(Run(less, threads, schedule[..i]), t)
  }

  ghost predicate AboutToFail(s: State, t: nat) {
    && Running(s, t) && s.pcs[t].Cas?
    && Load(s.h, Pred(s.pcs[t].ctx, s.pcs[t].level), s.pcs[t].level) != Succ(s.pcs[t].ctx, s.pcs[t].level)
  }

  lemma {:induction false} StepMark(s: State, u: nat, a: Action, t: nat)
    requires Running(s, t)
    ensures var s' := Step(s, u, a);
      Running(s', t) && (s'.tallies[t].mark == s.tallies[t].mark || s'.tallies[t].mark == Others(s, t))
  {
    if Running(s, u) {
      StepIsStep(s, u, a);
    }
  }

  lemma {:induction false} MarkOnlyGrows(less: Less, threads: nat, schedule: Schedule, t: nat, i: nat)
    requires StrictWeakOrder(less) && t < threads && i <= |schedule|
    ensures var s, s' := Run(less, threads, schedule[..i]), Run(less, threads, schedule);
      Running(s, t) && Running(s', t) && s.tallies[t].mark <= s'.tallies[t].mark
  {
    RunFixes(less, threads, schedule[..i]);
    RunFixes(less, threads, schedule);
    if i == |schedule| {
      assert schedule[..i] == schedule;
    } else {
      var before, last := schedule[..|schedule| - 1], schedule[|schedule| - 1];
      assert before[..i] == schedule[..i];
      MarkOnlyGrows(less, threads, before, t, i);
      RunKeeps(less, threads, before);
      assert ThreadInv(Run(less, threads, before), t);
      StepMark(Run(less, threads, before), last.0, last.1, t);
    }
  }

  lemma {:induction false} FailingMarks(s: State, t: nat, a: Action)
    requires AboutToFail(s, t) && a.Tick?
    ensures Running(Step(s, t, a), t) && Step(s, t, a).tallies[t].mark == Others(s, t)
  {
  }

  lemma {:induction false} FailureNeedsLink(less: Less, threads: nat, schedule: Schedule, t: nat, i: nat)
    requires StrictWeakOrder(less) && t < threads && i < |schedule| && FailsAt(less, threads, schedule, t, i)
    ensures var s := Run(less, threads, schedule[..i]); s.tallies[t].mark < Others(s, t)
  {
    LinksAreOwned(less, threads, schedule[..i]);
    FailuresAreCharged(less, threads, schedule[..i], t);
  }

  /** The links by other threads that a lost compare-exchange is charged to, numbered (mark, Others], exist,
      and two failures of one thread are charged to different ones. */
  lemma {:induction false} ChargesAreDisjoint(less: Less, threads: nat, schedule: Schedule, t: nat, i: nat, j: nat)
    requires StrictWeakOrder(less) && t < threads && i < j < |schedule|
    requires FailsAt(less, threads, schedule, t, i) && FailsAt(less, threads, schedule, t, j)
    ensures var a, b := Run(less, threads, schedule[..i]), Run(less, threads, schedule[..j]);
      a.tallies[t].mark < Others(a, t) <= b.tallies[t].mark < Others(b, t)
  {
    FailureNeedsLink(less, threads, schedule, t, i);
    FailureNeedsLink(less, threads, schedule, t, j);
    var next := i + 1;
    assert schedule[..next][..i] == schedule[..i] && schedule[..j][..next] == schedule[..next];
    FailingMarks(Run(less, threads, schedule[..i]), t, schedule[i].1);
    MarkOnlyGrows(less, threads, schedule[..j], t, next);
  }

  // ---------- Iterators ----------

  lemma {:induction false} StepMovesOneThread(s: State, u: nat, a: Action, t: nat)
    requires Running(s, t) && t != u
    ensures Running(Step(s, u, a), t) && Step(s, u, a).pcs[t] == s.pcs[t]
  {
    if Running(s, u) {
      StepIsStep(s, u, a);
    }
  }

  /** If thread `t` has an iterator in `s'`, it was opened on what is present in `s`. */
  ghost predicate OpensOnPresent(s: State, s': State, t: nat) {
    Running(s', t) && (s'.pcs[t].Cursor? ==> s'.pcs[t].must == PresentFrom(s.h, s'.pcs[t].from))
  }

  lemma {:induction false} EndSearchOpens(s: State, t: nat, key: Bytes, goal: Goal, ctx: Ctx)
    requires Running(s, t)
    ensures OpensOnPresent(s, EndSearch(s, t, key, goal, ctx), t)
  {
  }

  lemma {:induction false} SearchOpensCursor(s: State, t: nat, height: nat, spurious: bool)
    requires Running(s, t) && (s.pcs[t].SkipDown? || s.pcs[t].Walk?)
    ensures OpensOnPresent(s, StepTick(s, t, height, spurious), t)
  {
    match s.pcs[t]
    case SkipDown(key, goal, level) => EndSearchOpens(s, t, key, goal, FreshCtx());
    case Walk(key, goal, level, pred, ctx) => EndSearchOpens(s, t, key, goal, Record(ctx, level, pred, Load(s.h,
        pred, level)));
  }

  lemma {:induction false} TickOpensCursor(s: State, t: nat, height: nat, spurious: bool)
    requires Running(s, t) && !s.pcs[t].Cursor?
    ensures OpensOnPresent(s, StepTick(s, t, height, spurious), t)
  {
    if s.pcs[t].SkipDown? || s.pcs[t].Walk? {
      SearchOpensCursor(s, t, height, spurious);
    }
  }

  /** A step opens an iterator on what is present, or leaves what an open one owes alone. */
  lemma {:induction false} StepOpensCursor(s: State, u: nat, a: Action, t: nat)
    requires Running(s, t) && Running(Step(s, u, a), t) && Step(s, u, a).pcs[t].Cursor?
    ensures var pc := Step(s, u, a).pcs[t];
      if s.pcs[t].Cursor? then pc.must == s.pcs[t].must && pc.from == s.pcs[t].from
      else pc.must == PresentFrom(s.h, pc.from)
  {
    if u != t {
      StepMovesOneThread(s, u, a, t);
    } else if a.Tick? && !s.pcs[t].Cursor? {
      TickOpensCursor(s, t, a.height, a.spurious);
    } else if a.Tick? {
      assert Step(s, u, a) == StepCursor(s, t, s.pcs[t].from, s.pcs[t].current, s.pcs[t].visited, s.pcs[t].must);
    }
  }

  /** Step `i` of the run opened the iterator that thread `t` has at the end of it, and what it owes is
      what was linked then and not before its bound. */
  ghost predicate OpenedAt(less: Less, threads: nat, schedule: Schedule, t: nat, i: nat)
    requires i < |schedule|
  {
    && Opens(Run(less, threads, schedule[..i]), Run(less, threads, schedule), t)
    && (forall k | i < k <= |schedule| :: IsOpen(less, threads, schedule[..k], t))
  }

  ghost predicate IsOpen(less: Less, threads: nat, schedule: Schedule, t: nat) {
    Running(Run(less, threads, schedule), t) && Run(less, threads, schedule).pcs[t].Cursor?
  }

  lemma {:induction false} RunOpensCursor(less: Less, threads: nat, schedule: Schedule, t: nat)
    requires IsOpen(less, threads, schedule, t)
    ensures schedule != [] && Running(Run(less, threads, schedule[..|schedule| - 1]), t)
    ensures var s0, s := Run(less, threads, schedule[..|schedule| - 1]), Run(less, threads, schedule);
      if s0.pcs[t].Cursor? then s.pcs[t].must == s0.pcs[t].must && s.pcs[t].from == s0.pcs[t].from
      else s.pcs[t].must == PresentFrom(s0.h, s.pcs[t].from)
  {
    RunFixes(less, threads, schedule);
    var last := schedule[|schedule| - 1];
    RunFixes(less, threads, schedule[..|schedule| - 1]);
    StepOpensCursor(Run(less, threads, schedule[..|schedule| - 1]), last.0, last.1, t);
  }

  /** `s0` opened the iterator that `s` has. */
  ghost predicate Opens(s0: State, s: State, t: nat) {
    && Running(s0, t) && Running(s, t) && !s0.pcs[t].Cursor? && s.pcs[t].Cursor?
    && s.pcs[t].must == PresentFrom(s0.h, s.pcs[t].from)
  }

  lemma {:induction false} StaysOpen(less: Less, threads: nat, schedule: Schedule, before: Schedule, t: nat, i: nat)
    requires IsOpen(less, threads, schedule, t) && i + 1 < |schedule| && before == schedule[..|schedule| - 1]
    requires forall k | i < k <= |before| :: IsOpen(less, threads, before[..k], t)
    ensures forall k | i < k <= |schedule| :: IsOpen(less, threads, schedule[..k], t)
  {
    forall k | i < k <= |schedule|
      ensures IsOpen(less, threads, schedule[..k], t)
    {
      if k < |schedule| {
        assert IsOpen(less, threads, before[..k], t);
        assert before[..k] == schedule[..k];
      } else {
        assert schedule[..k] == schedule;
      }
    }
  }

  lemma {:induction false} OpenedBefore(less: Less, threads: nat, schedule: Schedule, before: Schedule, t: nat, i: nat)
    requires IsOpen(less, threads, schedule, t) && i + 1 < |schedule| && before == schedule[..|schedule| - 1]
    requires OpenedAt(less, threads, before, t, i)
    ensures OpenedAt(less, threads, schedule, t, i)
  {
    RunOpensCursor(less, threads, schedule, t);
    StaysOpen(less, threads, schedule, before, t, i);
    assert schedule[..i] == before[..i];
  }

  lemma {:induction false} OpenedNow(less: Less, threads: nat, schedule: Schedule, t: nat)
    requires IsOpen(less, threads, schedule, t) && schedule != []
    requires !IsOpen(less, threads, schedule[..|schedule| - 1], t)
    ensures OpenedAt(less, threads, schedule, t, |schedule| - 1)
  {
    RunOpensCursor(less, threads, schedule, t);
    assert schedule[..|schedule|] == schedule;
  }

  /** An open iterator was opened by one step of the run, has been open since, and owes what was linked
      at that step and not before its bound. */
  lemma {:induction false} CursorHistory(less: Less, threads: nat, schedule: Schedule, t: nat)
    requires IsOpen(less, threads, schedule, t)
    ensures exists i: nat | i < |schedule| :: OpenedAt(less, threads, schedule, t, i)
  {
    RunOpensCursor(less, threads, schedule, t);
    var before := schedule[..|schedule| - 1];
    if IsOpen(less, threads, before, t) {
      CursorHistory(less, threads, before, t);
      var i: nat :| i < |before| && OpenedAt(less, threads, before, t, i);
      OpenedBefore(less, threads, schedule, before, t, i);
    } else {
      OpenedNow(less, threads, schedule, t);
    }
  }

  /** However other threads interfere, an iterator yields no node twice, in key order and not before
      its bound; and when it has ended it has yielded every node present when it was opened. */
  lemma {:induction false} IteratorsAreComplete(less: Less, threads: nat, schedule: Schedule, t: nat)
    requires StrictWeakOrder(less) && t < threads
    ensures var s := Run(less, threads, schedule);
      && Running(s, t)
      && (s.pcs[t].Cursor? ==>
            var v := s.pcs[t].visited;
            && (forall i, j | 0 <= i < j < |v| :: v[i] != v[j] && !less(KeyOf(s.h, v[j]), KeyOf(s.h, v[i])))
            && (s.pcs[t].from.Some? ==> forall i | 0 <= i < |v| :: !less(KeyOf(s.h, v[i]), s.pcs[t].from.value))
            && (s.pcs[t].current == NULL ==> forall n | n in s.pcs[t].must :: n in v))
  {
    RunKeeps(less, threads, schedule);
    RunFixes(less, threads, schedule);
    var s := Run(less, threads, schedule);
    assert ThreadInv(s, t);
    match s.pcs[t]
    case Cursor(from, current, v, must) =>
      forall i | 0 <= i < |v|
        ensures from.Some? ==> !less(KeyOf(s.h, v[i]), from.value)
      {
        assert Yielded(s.h, from, v[i]);
      }
      forall i, j | 0 <= i < j < |v|
        ensures v[i] != v[j] && !less(KeyOf(s.h, v[j]), KeyOf(s.h, v[i]))
      {
        assert YieldedBefore(s.h, v, i, j) && Yielded(s.h, from, v[i]) && Yielded(s.h, from, v[j]);
        BeforeIsOrdered(s.h, v[i], v[j]);
      }
      forall n | n in must && current == NULL
        ensures n in v
      {
        assert Ahead(s.h, current, v, n);
      }
    case _ =>
  }

  lemma {:induction false} BeforeIsOrdered(h: Heap, a: int, b: int)
    requires Inv(h) && Before(h.rows[0], a, b) && 0 < a < |h.nodes| && 0 < b < |h.nodes|
    ensures a != b && !h.less(KeyOf(h, b), KeyOf(h, a))
  {
    var row := h.rows[0];
    assert RowOk(h, 0);
    var i, j :| 0 <= i < j < |row| && row[i] == a && row[j] == b;
    assert Apart(row, i, j) && InOrder(h, row, i, j);
  }
}
