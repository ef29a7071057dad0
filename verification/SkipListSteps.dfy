/** Every step of every thread keeps the invariant of the concurrent skip list. */
module SkipListSteps {
  import opened Basics
  import opened Lists
  import opened SkipListHeap
  import opened SkipListMachine
  import opened SkipListSpec
  import opened SkipListInvariant
  import opened SkipListFrame

  // ---------- The log ----------

  lemma {:induction false} JobsAppend(log: seq<Event>, e: Event, t: nat)
    ensures JobsOf(log + [e], t) == JobsOf(log, t) + (if e.tid == t then [EventJob(e)] else [])
  {
    assert (log + [e])[..|log|] == log;
  }

  lemma {:induction false} ExtendsContent(h: Heap, h': Heap)
    requires Inv(h) && Inv(h') && Extends(h, h')
    ensures RowOk(h, 0) && RowOk(h', 0) && Content(h') == Content(h)
  {
    assert RowOk(h, 0) && RowOk(h', 0);
    assert forall i | 0 <= i < |h.rows[0]| :: h'.nodes[h.rows[0][i]] == h.nodes[h.rows[0][i]];
  }

  /** Steps that log nothing and change no row keep the log legal. */
  lemma {:induction false} ExtendsLog(s: State, s': State)
    requires Inv(s.h) && Inv(s'.h) && Extends(s.h, s'.h) && LogOk(s) && s'.log == s.log
    ensures LogOk(s')
  {
    ExtendsContent(s.h, s'.h);
  }

  // ---------- The rule for steps that link nothing ----------

  ghost predicate OthersSame(s: State, s': State, t: nat) {
    && |s'.pcs| == |s.pcs| && |s'.tallies| == |s.tallies|
    && (forall u | 0 <= u < |s.pcs| && u != t :: s'.pcs[u] == s.pcs[u])
    && (forall u | 0 <= u < |s.tallies| && u != t :: s'.tallies[u] == s.tallies[u])
    && (s'.log == s.log || exists e: Event :: e.tid == t && s'.log == s.log + [e])
  }

  /** Only the tower of the node that thread `t` owns may change, at slots not yet linked. */
  ghost predicate Quiet(s: State, s': State, t: nat)
    requires Inv(s.h) && Running(s, t)
  {
    && OthersSame(s, s', t) && s'.links == s.links
    && Extends(s.h, s'.h)
    && (forall n | 0 <= n < |s.h.nodes| && n != Own(s.pcs[t]) :: s'.h.next[n] == s.h.next[n])
    && (Own(s'.pcs[t]) == NULL || Own(s'.pcs[t]) == Own(s.pcs[t]) || Own(s'.pcs[t]) == |s.h.nodes|)
  }

  lemma {:induction false} OtherJobs(log: seq<Event>, log': seq<Event>, t: nat, u: nat)
    requires t != u && (log' == log || exists e: Event :: e.tid == t && log' == log + [e])
    ensures JobsOf(log', u) == JobsOf(log, u)
  {
    if log' != log {
      var e: Event :| e.tid == t && log' == log + [e];
      JobsAppend(log, e, u);
    }
  }

  /** The account of a thread that did not take the step. */
  lemma {:induction false} TallyKept(s: State, s': State, u: nat)
    requires Running(s, u) && Running(s', u) && TallyInv(s, u)
    requires s'.pcs[u] == s.pcs[u] && s'.tallies[u] == s.tallies[u] && s.links <= s'.links
    requires s'.links == s.links && Fresh(s.h, s.pcs[u]) ==> Fresh(s'.h, s.pcs[u])
    requires JobsOf(s'.log, u) == JobsOf(s.log, u) && PendingJob(s'.h, s.pcs[u]) == PendingJob(s.h, s.pcs[u])
    ensures TallyInv(s', u)
  {
  }

  lemma {:induction false} OwnBound(s: State, u: nat)
    requires StateInv(s) && u < |s.pcs|
    ensures Own(s.pcs[u]) == NULL || 0 < Own(s.pcs[u]) < |s.h.nodes|
  {
    assert ThreadInv(s, u);
  }

  /** What a change that links nothing leaves a thread with. */
  lemma {:induction false} ExtendsPc(h: Heap, h': Heap, pc: Pc)
    requires Inv(h) && Extends(h, h') && PcInv(h, pc) && (0 <= Own(pc) < |h.nodes| ==>
      h'.next[Own(pc)] == h.next[Own(pc)])
    ensures PcInv(h', pc) && PendingJob(h', pc) == PendingJob(h, pc) && (Fresh(h, pc) ==> Fresh(h', pc))
  {
    ExtendsIsLater(h, h', Own(pc));
    LaterPc(h, h', pc);
    LaterJob(h, h', pc);
    if Fresh(h, pc) {
      ExtendsFresh(h, h', pc);
    }
  }

  lemma {:induction false} QuietOther(s: State, s': State, t: nat, u: nat)
    requires StateInv(s) && Running(s, t) && Quiet(s, s', t) && Inv(s'.h)
    requires u < |s.pcs| && u != t
    ensures ThreadInv(s', u)
  {
    assert ThreadInv(s, u);
    OwnBound(s, u);
    assert OwnApart(s.pcs, u, t);
    ExtendsPc(s.h, s'.h, s.pcs[u]);
    OtherJobs(s.log, s'.log, t, u);
    TallyKept(s, s', u);
  }

  lemma {:induction false} OwnStaysApart(s: State, s': State, t: nat)
    requires StateInv(s) && Running(s, t) && OthersSame(s, s', t)
    requires Own(s'.pcs[t]) == NULL || Own(s'.pcs[t]) == Own(s.pcs[t]) || Own(s'.pcs[t]) == |s.h.nodes|
    ensures forall a: nat, b: nat | a < |s'.pcs| && b < |s'.pcs| :: OwnApart(s'.pcs, a, b)
  {
    forall a: nat, b: nat | a < |s'.pcs| && b < |s'.pcs|
      ensures OwnApart(s'.pcs, a, b)
    {
      assert OwnApart(s.pcs, a, b) && OwnApart(s.pcs, b, a);
      OwnBound(s, a);
      OwnBound(s, b);
    }
  }

  lemma {:induction false} QuietKeeps(s: State, s': State, t: nat)
    requires StateInv(s) && Running(s, t) && Quiet(s, s', t)
    requires Inv(s'.h) && ThreadInv(s', t) && LogOk(s')
    ensures StateInv(s')
  {
    forall u: nat | u < |s'.pcs|
      ensures ThreadInv(s', u)
    {
      if u != t {
        QuietOther(s, s', t, u);
      }
    }
    OwnStaysApart(s, s', t);
  }

  /** Steps that touch only the thread's own program counter and tally. */
  lemma {:induction false} LocalKeeps(s: State, s': State, t: nat)
    requires StateInv(s) && Running(s, t) && OthersSame(s, s', t)
    requires s'.h == s.h && s'.links == s.links && s'.log == s.log
    requires Own(s'.pcs[t]) == NULL || Own(s'.pcs[t]) == Own(s.pcs[t])
    requires ThreadInv(s', t)
    ensures StateInv(s')
  {
    QuietKeeps(s, s', t);
  }

  /** Steps that only move the program counter. */
  lemma {:induction false} GotoKeeps(s: State, t: nat, pc: Pc)
    requires StateInv(s) && Running(s, t) && PcInv(s.h, pc)
    requires Own(pc) == NULL || Own(pc) == Own(s.pcs[t])
    requires s.tallies[t].mark == Others(s, t) ==> Fresh(s.h, pc)
    requires PendingJob(s.h, pc) == PendingJob(s.h, s.pcs[t])
    ensures StateInv(Goto(s, t, pc))
  {
    assert ThreadInv(s, t);
    LocalKeeps(s, Goto(s, t, pc), t);
  }

  /** Steps that move the program counter and change memory without linking. */
  lemma {:induction false} WriteKeeps(s: State, t: nat, pc: Pc, h': Heap)
    requires StateInv(s) && Running(s, t) && Extends(s.h, h') && Inv(h') && PcInv(h', pc)
    requires forall n | 0 <= n < |s.h.nodes| && n != Own(s.pcs[t]) :: h'.next[n] == s.h.next[n]
    requires Own(pc) == NULL || Own(pc) == Own(s.pcs[t]) || Own(pc) == |s.h.nodes|
    requires s.tallies[t].mark == Others(s, t) ==> Fresh(h', pc)
    requires PendingJob(h', pc) == PendingJob(s.h, s.pcs[t])
    ensures StateInv(Goto(s, t, pc).(h := h'))
  {
    assert ThreadInv(s, t);
    var s' := Goto(s, t, pc).(h := h');
    ExtendsLog(s, s');
    QuietKeeps(s, s', t);
  }

  // ---------- Results of a search ----------

  /** The successor loaded last at level 0 is the first entry >= key, at that instant. */
  lemma {:induction false} LookupIsCorrect(h: Heap, key: Bytes, ctx: Ctx)
    requires Inv(h) && CtxAt(h, key, ctx, 0) && FreshAt(h, ctx, 0)
    ensures RowOk(h, 0) && EntryAt(h, Succ(ctx, 0)) == SpecLookup(h.less, Content(h), key)
  {
    assert RowOk(h, 0);
    var p := Position(h.rows[0], Pred(ctx, 0));
    assert PointsOn(h, 0, h.rows[0], p);
    PositionIsLowerBound(h, p, key);
  }

  lemma {:induction false} AfterIsNext(row: seq<int>, p: nat, n: int)
    requires p + 1 < |row| && n in row[p + 1..]
    ensures n == row[p + 1] || Before(row, row[p + 1], n)
  {
    var j :| 0 <= j < |row[p + 1..]| && row[p + 1..][j] == n;
    assert row[p + 1 + j] == n;
  }

  /** An iterator opened on the follower of position `p` has everything it owes still ahead. */
  lemma {:induction false} OpensAhead(h: Heap, from: Option<Bytes>, p: nat)
    requires Inv(h) && p < |h.rows[0]|
    requires forall i | 0 <= i <= p :: h.rows[0][i] !in PresentFrom(h, from)
    requires After(h.rows[0], p) != NULL ==> Yielded(h, from, After(h.rows[0], p))
    ensures PcInv(h, OpenCursor(h, from, After(h.rows[0], p)))
  {
    var row := h.rows[0];
    assert RowOk(h, 0);
    var first := After(row, p);
    var pc := OpenCursor(h, from, first);
    forall n | n in PresentFrom(h, from)
      ensures Ahead(h, first, pc.visited, n)
    {
      var i := Position(row, n);
      assert row[p + 1..][i - p - 1] == n;
      AfterIsNext(row, p, n);
    }
  }

  lemma {:induction false} SeekOpens(h: Heap, key: Bytes, ctx: Ctx)
    requires Inv(h) && CtxAt(h, key, ctx, 0) && FreshAt(h, ctx, 0)
    ensures PcInv(h, OpenCursor(h, Some(key), Succ(ctx, 0)))
  {
    assert RowOk(h, 0);
    var p := Position(h.rows[0], Pred(ctx, 0));
    assert PointsOn(h, 0, h.rows[0], p);
    RowSplits(h, 0, p, key);
    OpensAhead(h, Some(key), p);
  }

  lemma {:induction false} FirstOpens(h: Heap)
    requires Inv(h)
    ensures PcInv(h, OpenCursor(h, None, Load(h, HEAD, 0)))
  {
    assert RowOk(h, 0) && PointsOn(h, 0, h.rows[0], 0);
    if |h.rows[0]| > 1 {
      assert Apart(h.rows[0], 0, 1);
    }
    OpensAhead(h, None, 0);
  }

  // ---------- Search steps ----------

  ghost function GoalOwn(goal: Goal): int {
    if goal.Link? then goal.node else NULL
  }

  /** What the last step of a search hands to `EndSearch`. */
  ghost predicate SearchDone(s: State, t: nat, key: Bytes, goal: Goal, ctx: Ctx)
    requires Inv(s.h) && Running(s, t)
  {
    && Own(s.pcs[t]) == GoalOwn(goal) && GoalOk(s.h, key, goal)
    && CtxOk(s.h, key, ctx, 0) && FreshAt(s.h, ctx, 0)
    && (s.tallies[t].mark == Others(s, t) ==> FreshFrom(s.h, ctx, 0))
    && (Retrying(s.h, goal) ==> Succ(ctx, goal.level) != NULL)
    && PendingJob(s.h, s.pcs[t]) == GoalJob(s.h, key, goal)
  }

  lemma {:induction false} EndSearchKeeps(s: State, t: nat, key: Bytes, goal: Goal, ctx: Ctx)
    requires StateInv(s) && Running(s, t) && SearchDone(s, t, key, goal, ctx)
    ensures StateInv(EndSearch(s, t, key, goal, ctx))
  {
    match goal
    case Lookup => ReportKeeps(s, t, key, ctx, Idle);
    case Seek =>
      assert CtxAt(s.h, key, ctx, 0);
      SeekOpens(s.h, key, ctx);
      ReportKeeps(s, t, key, ctx, OpenCursor(s.h, Some(key), Succ(ctx, 0)));
    case Insert(value) => GotoKeeps(s, t, Draw(key, value, Some(ctx)));
    case Link(node, level) => ResumeKeeps(s, t, key, goal, ctx);
  }

  /** A search that ends by going on to link. */
  lemma {:induction false} ResumeKeeps(s: State, t: nat, key: Bytes, goal: Goal, ctx: Ctx)
    requires StateInv(s) && Running(s, t) && SearchDone(s, t, key, goal, ctx) && goal.Link?
    ensures StateInv(Goto(s, t, Store(goal.node, goal.level, ctx)))
  {
    assert forall l | goal.level <= l < MAX_HEIGHT :: CtxAt(s.h, key, ctx, l);
    assert FreshFrom(s.h, ctx, 0) ==> FreshFrom(s.h, ctx, goal.level);
    GotoKeeps(s, t, Store(goal.node, goal.level, ctx));
  }

  /** A search that ends by reporting its result. */
  lemma {:induction false} ReportKeeps(s: State, t: nat, key: Bytes, ctx: Ctx, pc: Pc)
    requires StateInv(s) && Running(s, t) && PendingJob(s.h, s.pcs[t]) == [Find(key)]
    requires CtxOk(s.h, key, ctx, 0) && FreshAt(s.h, ctx, 0)
    requires PcInv(s.h, pc) && (pc.Idle? || pc.Cursor?)
    ensures StateInv(Goto(s, t, pc).(log := s.log + [LookedUp(t, key, EntryAt(s.h, Succ(ctx, 0)))]))
  {
    assert CtxAt(s.h, key, ctx, 0);
    LookupIsCorrect(s.h, key, ctx);
    AnswerKeeps(s, t, LookedUp(t, key, EntryAt(s.h, Succ(ctx, 0))), pc);
  }

  lemma {:induction false} AnswerTally(s: State, t: nat, e: Event, pc: Pc)
    requires Running(s, t) && TallyInv(s, t) && PendingJob(s.h, s.pcs[t]) == [EventJob(e)] && e.tid == t
    requires pc.Idle? || pc.Cursor?
    ensures TallyInv(Goto(s, t, pc).(log := s.log + [e]), t)
  {
    JobsAppend(s.log, e, t);
    OverIsFresh(s.h, pc);
    assert JobsOf(s.log + [e], t) + [] == JobsOf(s.log, t) + PendingJob(s.h, s.pcs[t]);
  }

  /** A call that is over has nothing left to log and no context to keep. */
  lemma {:induction false} OverIsFresh(h: Heap, pc: Pc)
    requires pc.Idle? || pc.Cursor?
    ensures Fresh(h, pc) && PendingJob(h, pc) == []
  {
  }

  /** Logging a correct answer. */
  lemma {:induction false} AnswerKeeps(s: State, t: nat, e: Event, pc: Pc)
    requires StateInv(s) && Running(s, t) && PendingJob(s.h, s.pcs[t]) == [EventJob(e)]
    requires e.LookedUp? && e.tid == t && e.result == SpecLookup(s.h.less, Content(s.h), e.key)
    requires PcInv(s.h, pc) && (pc.Idle? || pc.Cursor?)
    ensures StateInv(Goto(s, t, pc).(log := s.log + [e]))
  {
    var s' := Goto(s, t, pc).(log := s.log + [e]);
    assert ThreadInv(s, t);
    ReplayAppend(s.h.less, s.log, e);
    AnswerTally(s, t, e, pc);
    QuietKeeps(s, s', t);
  }

  /** Rows at or above `max_level` hold only the sentinel. */
  lemma {:induction false} EmptyAbove(h: Heap, l: int)
    requires Inv(h) && h.maxLevel <= l < MAX_HEIGHT
    ensures Load(h, HEAD, l) == NULL
  {
    assert RowOk(h, l) && PointsOn(h, l, h.rows[l], 0);
  }

  lemma {:induction false} LoadMaxKeeps(s: State, t: nat, key: Bytes, goal: Goal)
    requires StateInv(s) && Running(s, t) && s.pcs[t] == LoadMax(key, goal)
    ensures StateInv(Goto(s, t, SkipDown(key, goal, s.h.maxLevel)))
  {
    assert ThreadInv(s, t);
    var h := s.h;
    forall l | h.maxLevel <= l < MAX_HEIGHT
      ensures FreshAt(h, FreshCtx(), l)
    {
      EmptyAbove(h, l);
    }
    if Retrying(h, goal) {
      RetryLevelIsOccupied(h, key, goal);
    }
    GotoKeeps(s, t, SkipDown(key, goal, h.maxLevel));
  }

  /** While a retry's slot holds a successor, the sentinel's pointer at that level is not null. */
  lemma {:induction false} RetryLevelIsOccupied(h: Heap, key: Bytes, goal: Goal)
    requires Inv(h) && GoalOk(h, key, goal) && Retrying(h, goal)
    ensures Load(h, HEAD, goal.level) != NULL && goal.level < h.maxLevel
  {
    var l := goal.level;
    assert RowOk(h, l) && PointsOn(h, l, h.rows[l], 0);
    var i := Position(h.rows[l], h.next[goal.node][l]);
  }

  /** The first level on which the sentinel points somewhere is where the walk begins. */
  lemma {:induction false} SkipDownEnds(h: Heap, key: Bytes, goal: Goal, level: nat)
    requires Inv(h) && PcInv(h, SkipDown(key, goal, level)) && Load(h, HEAD, level - 1) != NULL
    ensures PcInv(h, Walk(key, goal, level - 1, HEAD, FreshCtx()))
  {
    FreshCtxOk(h, key);
    assert forall l | level <= l < MAX_HEIGHT :: CtxAt(h, key, FreshCtx(), l);
    assert CtxAt(h, key, FreshCtx(), level - 1);
  }

  /** A level on which it points nowhere is left out, and is not the one a retry must link. */
  lemma {:induction false} SkipDownGoesOn(h: Heap, key: Bytes, goal: Goal, level: nat)
    requires Inv(h) && PcInv(h, SkipDown(key, goal, level)) && Load(h, HEAD, level - 1) == NULL
    ensures Retrying(h, goal) ==> goal.level < level - 1
    ensures FreshFrom(h, FreshCtx(), level) ==> FreshFrom(h, FreshCtx(), level - 1)
    ensures FreshAt(h, FreshCtx(), level - 1)
  {
    if Retrying(h, goal) {
      RetryLevelIsOccupied(h, key, goal);
    }
    assert FreshAt(h, FreshCtx(), level - 1);
  }

  lemma {:induction false} SkipDownKeeps(s: State, t: nat, key: Bytes, goal: Goal, level: nat)
    requires StateInv(s) && Running(s, t) && s.pcs[t] == SkipDown(key, goal, level)
    ensures StateInv(StepSkipDown(s, t, key, goal, level))
  {
    assert ThreadInv(s, t);
    if Load(s.h, HEAD, level - 1) != NULL {
      SkipDownEnds(s.h, key, goal, level);
      GotoKeeps(s, t, Walk(key, goal, level - 1, HEAD, FreshCtx()));
    } else {
      SkipDownGoesOn(s.h, key, goal, level);
      if level == 1 {
        FreshCtxOk(s.h, key);
        EndSearchKeeps(s, t, key, goal, FreshCtx());
      } else {
        GotoKeeps(s, t, SkipDown(key, goal, level - 1));
      }
    }
  }

  /** What a level-`level` load of the walk yields, and where it leaves the retry obligation. */
  lemma {:induction false} WalkLoads(h: Heap, key: Bytes, goal: Goal, level: nat, pred: int)
    requires Inv(h) && level < MAX_HEIGHT && PredOk(h, level, key, pred) && GoalOk(h, key, goal)
    ensures InTower(h, pred, level)
    ensures var curr := Load(h, pred, level);
      && (curr != NULL ==> curr in h.rows[level] && 0 < curr < |h.nodes|)
      && (curr == NULL && Retrying(h, goal) ==> goal.level != level)
  {
    assert RowOk(h, level);
    var row := h.rows[level];
    var p := Position(row, pred);
    assert PointsOn(h, level, row, p);
    var curr := Load(h, pred, level);
    if curr != NULL {
      assert Apart(row, 0, p + 1);
    } else if Retrying(h, goal) && goal.level == level {
      RowSplits(h, level, p, key);
      var q := Position(row, h.next[goal.node][level]);
    }
  }

  lemma {:induction false} RecordCtx(h: Heap, key: Bytes, ctx: Ctx, level: nat, pred: int)
    requires Inv(h) && level < MAX_HEIGHT && PredOk(h, level, key, pred) && CtxOk(h, key, ctx, level + 1)
    requires var curr := Load(h, pred, level); curr != NULL ==> SuccOk(h, level, key, curr)
    ensures var ctx' := Record(ctx, level, pred, Load(h, pred, level));
      && CtxOk(h, key, ctx', level) && FreshAt(h, ctx', level)
      && (FreshFrom(h, ctx, level + 1) ==> FreshFrom(h, ctx', level))
  {
    var ctx' := Record(ctx, level, pred, Load(h, pred, level));
    forall l | level <= l < MAX_HEIGHT
      ensures CtxAt(h, key, ctx', l)
    {
      assert l > level ==> CtxAt(h, key, ctx, l);
    }
    if FreshFrom(h, ctx, level + 1) {
      forall l | level <= l < MAX_HEIGHT
        ensures FreshAt(h, ctx', l)
      {
        assert l > level ==> FreshAt(h, ctx, l);
      }
    }
  }

  /** The walk moves right past a node that sorts before `key`. */
  lemma {:induction false} WalkRightKeeps(s: State, t: nat, key: Bytes, goal: Goal, level: nat, pred: int, ctx: Ctx)
    requires StateInv(s) && Running(s, t) && s.pcs[t] == Walk(key, goal, level, pred, ctx)
    requires var curr := Load(s.h, pred, level); curr != NULL && SortsBefore(s.h, curr, key)
    ensures StateInv(StepWalk(s, t, key, goal, level, pred, ctx))
  {
    assert ThreadInv(s, t);
    WalkLoads(s.h, key, goal, level, pred);
    GotoKeeps(s, t, Walk(key, goal, level, Load(s.h, pred, level), ctx));
  }

  /** The walk records its bracket and goes down one level. */
  lemma {:induction false} WalkDownKeeps(s: State, t: nat, key: Bytes, goal: Goal, level: nat, pred: int, ctx: Ctx)
    requires StateInv(s) && Running(s, t) && s.pcs[t] == Walk(key, goal, level, pred, ctx) && level > 0
    requires var ctx' := Record(ctx, level, pred, Load(s.h, pred, level));
      && CtxOk(s.h, key, ctx', level)
      && (FreshFrom(s.h, ctx, level + 1) ==> FreshFrom(s.h, ctx', level))
      && (Retrying(s.h, goal) ==> goal.level < level || Succ(ctx', goal.level) != NULL)
    ensures StateInv(Goto(s, t, Walk(key, goal, level - 1, pred, Record(ctx, level, pred, Load(s.h, pred, level)))))
  {
    assert ThreadInv(s, t) && RowBelow(s.h, level);
    GotoKeeps(s, t, Walk(key, goal, level - 1, pred, Record(ctx, level, pred, Load(s.h, pred, level))));
  }

  lemma {:induction false} WalkKeeps(s: State, t: nat, key: Bytes, goal: Goal, level: nat, pred: int, ctx: Ctx)
    requires StateInv(s) && Running(s, t) && s.pcs[t] == Walk(key, goal, level, pred, ctx)
    ensures StateInv(StepWalk(s, t, key, goal, level, pred, ctx))
  {
    assert ThreadInv(s, t);
    var curr := Load(s.h, pred, level);
    if curr != NULL && SortsBefore(s.h, curr, key) {
      WalkRightKeeps(s, t, key, goal, level, pred, ctx);
    } else {
      WalkLoads(s.h, key, goal, level, pred);
      RecordCtx(s.h, key, ctx, level, pred);
      if level == 0 {
        EndSearchKeeps(s, t, key, goal, Record(ctx, level, pred, curr));
      } else {
        WalkDownKeeps(s, t, key, goal, level, pred, ctx);
      }
    }
  }

  // ---------- Drawing a height and allocating ----------

  lemma {:induction false} CallFirstKeeps(s: State, t: nat)
    requires StateInv(s) && Running(s, t) && s.pcs[t].Idle?
    ensures StateInv(StepCall(s, t, OpFirst))
  {
    assert ThreadInv(s, t);
    FirstOpens(s.h);
    LocalKeeps(s, StepCall(s, t, OpFirst), t);
  }

  lemma {:induction false} CallSearchKeeps(s: State, t: nat, op: Op)
    requires StateInv(s) && Running(s, t) && s.pcs[t].Idle? && !op.OpFirst? && !op.OpInsertWith?
    ensures StateInv(StepCall(s, t, op))
  {
    assert ThreadInv(s, t);
    match op
    case OpLookup(key) => BeginKeeps(s, t, key, Lookup, Find(key));
    case OpSeek(key) => BeginKeeps(s, t, key, Seek, Find(key));
    case OpInsert(key, value) => BeginKeeps(s, t, key, Insert(value), Add(Entry(key, value)));
  }

  /** Calling for a search. */
  lemma {:induction false} BeginKeeps(s: State, t: nat, key: Bytes, goal: Goal, job: Job)
    requires StateInv(s) && Running(s, t) && s.pcs[t].Idle? && !goal.Link? && GoalJob(s.h, key, goal) == [job]
    ensures var s1 := s.(tallies := s.tallies[t := s.tallies[t].(calls := s.tallies[t].calls + [job])]);
      StateInv(BeginSearch(s1, t, key, goal))
  {
    assert ThreadInv(s, t);
    var s1 := s.(tallies := s.tallies[t := s.tallies[t].(calls := s.tallies[t].calls + [job])]);
    LocalKeeps(s, BeginSearch(s1, t, key, goal), t);
  }

  lemma {:induction false} CallKeeps(s: State, t: nat, op: Op)
    requires StateInv(s) && Running(s, t) && s.pcs[t].Idle?
    ensures StateInv(StepCall(s, t, op))
  {
    match op
    case OpFirst => CallFirstKeeps(s, t);
    case OpInsertWith(_, _) =>
      assert ThreadInv(s, t);
      LocalKeeps(s, StepCall(s, t, op), t);
    case _ => CallSearchKeeps(s, t, op);
  }

  lemma {:induction false} DrawKeeps(s: State, t: nat, height: nat)
    requires StateInv(s) && Running(s, t) && s.pcs[t].Draw? && 1 <= height <= MAX_HEIGHT
    ensures StateInv(StepTick(s, t, height, false)) && StateInv(StepTick(s, t, height, true))
  {
    assert ThreadInv(s, t);
    GotoKeeps(s, t, RaiseOrAllocate(s.pcs[t].key, s.pcs[t].value, s.pcs[t].found, height, s.h.maxLevel));
  }

  lemma {:induction false} RaiseExtends(h: Heap, key: Bytes, value: Bytes, found: Option<Ctx>, height: nat, seen: nat)
    requires Inv(h) && PcInv(h, Raise(key, value, found, height, seen)) && h.maxLevel == seen
    ensures var h' := h.(maxLevel := height);
      && Extends(h, h') && Inv(h') && PcInv(h', Allocate(key, value, found, height))
      && (Fresh(h, Raise(key, value, found, height, seen)) ==> Fresh(h', Allocate(key, value, found, height)))
  {
    var h' := h.(maxLevel := height);
    ExtendKeepsInv(h, h');
    ExtendsPc(h, h', Draw(key, value, found));
  }

  lemma {:induction false} RaiseKeeps(s: State, t: nat, height: nat, spurious: bool)
    requires StateInv(s) && Running(s, t) && s.pcs[t].Raise?
    ensures StateInv(StepTick(s, t, height, spurious))
  {
    assert ThreadInv(s, t);
    var pc := s.pcs[t];
    if s.h.maxLevel == pc.seen && !spurious {
      RaiseExtends(s.h, pc.key, pc.value, pc.found, pc.height, pc.seen);
      WriteKeeps(s, t, Allocate(pc.key, pc.value, pc.found, pc.height), s.h.(maxLevel := pc.height));
    } else {
      GotoKeeps(s, t, RaiseOrAllocate(pc.key, pc.value, pc.found, pc.height, s.h.maxLevel));
    }
  }

  lemma {:induction false} AllocExtends(h: Heap, node: Node)
    requires Inv(h) && 1 <= node.height <= h.maxLevel
    ensures var h' := AllocNode(h, node);
      Extends(h, h') && Inv(h') && OwnOk(h', |h.nodes|, 0) && Load(h', |h.nodes|, 0) == NULL
  {
    var h' := AllocNode(h, node);
    assert Shape(h');
    ExtendKeepsInv(h, h');
    forall l | 0 <= l < MAX_HEIGHT
      ensures OwnAt(h', |h.nodes|, 0, l)
    {
      assert RowOk(h, l);
    }
  }

  /** `insert` goes on with the context it has. */
  lemma {:induction false} AllocateFoundKeeps(s: State, t: nat, key: Bytes, value: Bytes, ctx: Ctx, height: nat)
    requires StateInv(s) && Running(s, t) && s.pcs[t] == Allocate(key, value, Some(ctx), height)
    ensures StateInv(StepAllocate(s, t, key, value, Some(ctx), height))
  {
    assert ThreadInv(s, t);
    var h' := AllocNode(s.h, Node(key, value, height));
    AllocExtends(s.h, Node(key, value, height));
    ExtendsPc(s.h, h', Draw(key, value, Some(ctx)));
    WriteKeeps(s, t, Store(|s.h.nodes|, 0, ctx), h');
  }

  /** `insert_with` begins its search. */
  lemma {:induction false} AllocateFirstKeeps(s: State, t: nat, key: Bytes, value: Bytes, height: nat)
    requires StateInv(s) && Running(s, t) && s.pcs[t] == Allocate(key, value, None, height)
    ensures StateInv(StepAllocate(s, t, key, value, None, height))
  {
    assert ThreadInv(s, t);
    var s' := StepAllocate(s, t, key, value, None, height);
    AllocExtends(s.h, Node(key, value, height));
    ExtendsLog(s, s');
    QuietKeeps(s, s', t);
  }

  // ---------- Linking ----------

  /** Writing the slot of a node that is not linked at that level. */
  lemma {:induction false} StoreExtends(h: Heap, node: int, level: int, v: int)
    requires Inv(h) && OwnOk(h, node, level) && SuccOk(h, level, h.nodes[node].key, v)
    ensures var h' := StoreCell(h, node, level, v);
      && Extends(h, h') && Inv(h') && OwnOk(h', node, level) && h'.next[node][level] == v
      && (forall n | 0 <= n < |h.nodes| && n != node :: h'.next[n] == h.next[n])
  {
    var h' := StoreCell(h, node, level, v);
    StoreCellFrame(h, node, level, v);
    assert OwnAt(h, node, level, level);
    ExtendKeepsInv(h, h');
    forall l | 0 <= l < MAX_HEIGHT
      ensures OwnAt(h', node, level, l)
    {
      assert OwnAt(h, node, level, l);
      assert level < l < h.nodes[node].height ==> InTower(h, node, l);
    }
  }

  /** A context survives a change that leaves all rows and node contents alone. */
  lemma {:induction false} ExtendsCtx(h: Heap, h': Heap, key: Bytes, ctx: Ctx, low: int)
    requires Inv(h) && Extends(h, h') && 0 <= low && CtxOk(h, key, ctx, low)
    ensures CtxOk(h', key, ctx, low)
  {
    ExtendsIsLater(h, h', NULL);
    LaterCtx(h, h', NULL, key, ctx, low);
  }

  lemma {:induction false} StoreLeads(h: Heap, node: int, level: nat, ctx: Ctx)
    requires Inv(h) && PcInv(h, Store(node, level, ctx)) && Succ(ctx, level) != NULL
    ensures var h' := StoreCell(h, node, level, Succ(ctx, level));
      && Extends(h, h') && Inv(h') && PcInv(h', Cas(node, level, ctx))
      && (FreshFrom(h, ctx, level) ==> FreshFrom(h', ctx, level))
      && (forall n | 0 <= n < |h.nodes| && n != node :: h'.next[n] == h.next[n])
  {
    var h' := StoreCell(h, node, level, Succ(ctx, level));
    assert CtxAt(h, h.nodes[node].key, ctx, level);
    StoreExtends(h, node, level, Succ(ctx, level));
    ExtendsCtx(h, h', h.nodes[node].key, ctx, level);
    if FreshFrom(h, ctx, level) {
      ExtendsFreshFrom(h, h', h.nodes[node].key, ctx, level);
    }
  }

  lemma {:induction false} StoreKeeps(s: State, t: nat, node: int, level: nat, ctx: Ctx)
    requires StateInv(s) && Running(s, t) && s.pcs[t] == Store(node, level, ctx)
    ensures StateInv(StepStore(s, t, node, level, ctx))
  {
    assert ThreadInv(s, t);
    if Succ(ctx, level) == NULL {
      assert Goto(s, t, Cas(node, level, ctx)).(h := s.h) == Goto(s, t, Cas(node, level, ctx));
      GotoKeeps(s, t, Cas(node, level, ctx));
    } else {
      StoreLeads(s.h, node, level, ctx);
      WriteKeeps(s, t, Cas(node, level, ctx), StoreCell(s.h, node, level, Succ(ctx, level)));
    }
  }

  lemma {:induction false} CasFailsKeeps(s: State, t: nat, node: int, level: nat, ctx: Ctx)
    requires StateInv(s) && Running(s, t) && s.pcs[t] == Cas(node, level, ctx)
    requires Load(s.h, Pred(ctx, level), level) != Succ(ctx, level)
    ensures StateInv(StepCas(s, t, node, level, ctx))
  {
    assert ThreadInv(s, t);
    assert !FreshAt(s.h, ctx, level);
    LocalKeeps(s, StepCas(s, t, node, level, ctx), t);
  }

  /** The pointer read equals the recorded one, so the node may be linked there. */
  lemma {:induction false} CasMayLink(h: Heap, node: int, level: nat, ctx: Ctx)
    requires Inv(h) && OwnOk(h, node, level) && CtxOk(h, h.nodes[node].key, ctx, level)
    requires h.next[node][level] == Succ(ctx, level) && FreshAt(h, ctx, level)
    ensures Pred(ctx, level) in h.rows[level]
    ensures CanLink(h, level, IndexOf(h.rows[level], Pred(ctx, level)), node)
  {
    assert CtxAt(h, h.nodes[node].key, ctx, level) && RowOk(h, level);
    var p := IndexOf(h.rows[level], Pred(ctx, level));
    assert PointsOn(h, level, h.rows[level], p);
    assert OwnAt(h, node, level, level);
    assert level > 0 ==> OwnAt(h, node, level, level - 1);
  }

  /** Once linked at `level`, the node is ready for the next level. */
  lemma {:induction false} LinkedOwn(h: Heap, node: int, level: int, p: nat)
    requires CanLink(h, level, p, node) && OwnOk(h, node, level) && level + 1 < h.nodes[node].height
    ensures var h' := LinkAfter(h, level, p, node);
      Inv(h') && OwnOk(h', node, level + 1) && h'.next[node][level + 1] == NULL
  {
    var h' := LinkAfter(h, level, p, node);
    LinkKeepsInv(h, level, p, node);
    assert RowOk(h, level);
    StoreCellFrame(h, h.rows[level][p], level, node);
    var up := level + 1;
    forall l | 0 <= l < MAX_HEIGHT
      ensures OwnAt(h', node, up, l)
    {
      assert OwnAt(h, node, level, l);
      InsertAtMember(h.rows[level], p + 1, node, node);
      assert level < l < h.nodes[node].height ==> InTower(h, node, l);
    }
    assert OwnAt(h, node, level, level + 1) && InTower(h, node, level + 1);
  }

  /** Linking at `level` does not disturb the linking thread's context above it. */
  lemma {:induction false} LinkedCtx(h: Heap, node: int, level: int, p: nat, ctx: Ctx)
    requires CanLink(h, level, p, node) && CtxOk(h, h.nodes[node].key, ctx, level)
    ensures var h' := LinkAfter(h, level, p, node);
      && Shape(h') && CtxOk(h', h.nodes[node].key, ctx, level + 1)
      && (FreshFrom(h, ctx, level) ==> FreshFrom(h', ctx, level + 1))
  {
    var h' := LinkAfter(h, level, p, node);
    LinkIsLater(h, level, p, node, NULL);
    LaterCtx(h, h', NULL, h.nodes[node].key, ctx, level);
    assert forall l | level + 1 <= l < MAX_HEIGHT :: CtxAt(h', h.nodes[node].key, ctx, l);
    assert RowOk(h, level);
    StoreCellFrame(h, h.rows[level][p], level, node);
    if FreshFrom(h, ctx, level) {
      forall l | level + 1 <= l < MAX_HEIGHT
        ensures FreshAt(h', ctx, l)
      {
        assert FreshAt(h, ctx, l) && CtxAt(h, h.nodes[node].key, ctx, l) && RowOk(h, l);
        var i := Position(h.rows[l], Pred(ctx, l));
        assert InTower(h, Pred(ctx, l), l);
      }
    }
  }

  lemma {:induction false} LinkOtherPc(h: Heap, node: int, level: nat, ctx: Ctx, pc: Pc)
    requires Inv(h) && PcInv(h, Cas(node, level, ctx)) && FreshAt(h, ctx, level) && PcInv(h, pc) && Own(pc) != node
    ensures var h' := LinkNode(h, level, Pred(ctx, level), node);
      Shape(h') && PcInv(h', pc) && PendingJob(h', pc) == PendingJob(h, pc)
  {
    var h' := LinkNode(h, level, Pred(ctx, level), node);
    CasMayLink(h, node, level, ctx);
    LinkIsLater(h, level, IndexOf(h.rows[level], Pred(ctx, level)), node, Own(pc));
    LaterPc(h, h', pc);
    LaterJob(h, h', pc);
  }

  /** Another thread's view of a link: its invariant survives, and the link is one more by others. */
  lemma {:induction false} LinkOther(s: State, t: nat, node: int, level: nat, ctx: Ctx, u: nat)
    requires StateInv(s) && Running(s, t) && s.pcs[t] == Cas(node, level, ctx)
    requires FreshAt(s.h, ctx, level) && u < |s.pcs| && u != t
    requires var s' := StepCas(s, t, node, level, ctx); Inv(s'.h)
    ensures ThreadInv(StepCas(s, t, node, level, ctx), u)
  {
    var s' := StepCas(s, t, node, level, ctx);
    assert ThreadInv(s, t) && ThreadInv(s, u) && OwnApart(s.pcs, t, u);
    LinkOtherPc(s.h, node, level, ctx, s.pcs[u]);
    OtherJobs(s.log, s'.log, t, u);
    TallyKept(s, s', u);
  }

  /** The linking thread continues one level up, or is done. */
  lemma {:induction false} LinkSelfPc(h: Heap, node: int, level: nat, ctx: Ctx)
    requires Inv(h) && PcInv(h, Cas(node, level, ctx)) && FreshAt(h, ctx, level)
    ensures var h' := LinkNode(h, level, Pred(ctx, level), node);
      && Inv(h') && h'.nodes == h.nodes
      && (level + 1 < h.nodes[node].height ==>
            && PcInv(h', Store(node, level + 1, ctx))
            && (FreshFrom(h, ctx, level) ==> FreshFrom(h', ctx, level + 1)))
  {
    CasMayLink(h, node, level, ctx);
    var p := IndexOf(h.rows[level], Pred(ctx, level));
    LinkKeepsInv(h, level, p, node);
    if level + 1 < h.nodes[node].height {
      LinkedOwn(h, node, level, p);
      LinkedCtx(h, node, level, p, ctx);
    }
  }

  lemma {:induction false} LinkSelf(s: State, t: nat, node: int, level: nat, ctx: Ctx)
    requires Inv(s.h) && Running(s, t) && s.pcs[t] == Cas(node, level, ctx) && ThreadInv(s, t)
    requires FreshAt(s.h, ctx, level)
    ensures var s' := StepCas(s, t, node, level, ctx); Inv(s'.h) && ThreadInv(s', t)
  {
    var s' := StepCas(s, t, node, level, ctx);
    LinkSelfPc(s.h, node, level, ctx);
    LinkSelfJobs(s.h, s'.h, s.log, t, node, level, ctx);
    LinkTally(s, s', t);
  }

  /** The base-level link moves the job from pending to logged. */
  lemma {:induction false} LinkSelfJobs(h: Heap, h': Heap, log: seq<Event>, t: nat, node: int, level: nat, ctx: Ctx)
    requires h'.nodes == h.nodes && 0 < node < |h.nodes|
    ensures var log' := if level == 0 && EntryAt(h, node).Some? then log + [Inserted(t, EntryAt(h, node).value)]
      else log;
      var pc' := if level + 1 < HeightOf(h, node) then Store(node, level + 1, ctx) else Idle;
      JobsOf(log', t) + PendingJob(h', pc') == JobsOf(log, t) + PendingJob(h, Cas(node, level, ctx))
  {
    if level == 0 {
      JobsAppend(log, Inserted(t, EntryAt(h, node).value), t);
    }
  }

  /** The account of the thread that made the link. */
  lemma {:induction false} LinkTally(s: State, s': State, t: nat)
    requires Running(s, t) && Running(s', t) && TallyInv(s, t) && s'.links == s.links + 1
    requires s'.tallies[t] == s.tallies[t].(own := s.tallies[t].own + 1)
    requires Fresh(s.h, s.pcs[t]) ==> Fresh(s'.h, s'.pcs[t])
    requires JobsOf(s'.log, t) + PendingJob(s'.h, s'.pcs[t]) == JobsOf(s.log, t) + PendingJob(s.h, s.pcs[t])
    ensures TallyInv(s', t)
  {
  }

  /** The base-level link appends one legal insert to the log; links above it change no content. */
  lemma {:induction false} LinkLog(s: State, t: nat, node: int, level: nat, ctx: Ctx)
    requires StateInv(s) && Running(s, t) && s.pcs[t] == Cas(node, level, ctx)
    requires FreshAt(s.h, ctx, level)
    requires var s' := StepCas(s, t, node, level, ctx); Inv(s'.h)
    ensures LogOk(StepCas(s, t, node, level, ctx))
  {
    var s' := StepCas(s, t, node, level, ctx);
    assert ThreadInv(s, t) && RowOk(s'.h, 0);
    CasMayLink(s.h, node, level, ctx);
    if level == 0 {
      LinkInserts(s.h, IndexOf(s.h.rows[0], Pred(ctx, 0)), node);
      ReplayAppend(s.h.less, s.log, Inserted(t, EntryAt(s.h, node).value));
    } else {
      assert Content(s'.h) == Content(s.h);
    }
  }

  lemma {:induction false} LinkThreads(s: State, t: nat, node: int, level: nat, ctx: Ctx)
    requires StateInv(s) && Running(s, t) && s.pcs[t] == Cas(node, level, ctx) && FreshAt(s.h, ctx, level)
    ensures var s' := StepCas(s, t, node, level, ctx);
      Inv(s'.h) && |s'.pcs| == |s.pcs| == |s'.tallies| && forall u: nat | u < |s.pcs| :: ThreadInv(s', u)
  {
    assert ThreadInv(s, t);
    LinkSelf(s, t, node, level, ctx);
    forall u: nat | u < |s.pcs|
      ensures ThreadInv(StepCas(s, t, node, level, ctx), u)
    {
      if u != t {
        LinkOther(s, t, node, level, ctx, u);
      }
    }
  }

  lemma {:induction false} CasWinsKeeps(s: State, t: nat, node: int, level: nat, ctx: Ctx)
    requires StateInv(s) && Running(s, t) && s.pcs[t] == Cas(node, level, ctx) && FreshAt(s.h, ctx, level)
    ensures StateInv(StepCas(s, t, node, level, ctx))
  {
    LinkThreads(s, t, node, level, ctx);
    LinkLog(s, t, node, level, ctx);
    OwnStaysApart(s, StepCas(s, t, node, level, ctx), t);
  }

  lemma {:induction false} CasKeeps(s: State, t: nat, node: int, level: nat, ctx: Ctx)
    requires StateInv(s) && Running(s, t) && s.pcs[t] == Cas(node, level, ctx)
    ensures StateInv(StepCas(s, t, node, level, ctx))
  {
    if FreshAt(s.h, ctx, level) {
      CasWinsKeeps(s, t, node, level, ctx);
    } else {
      CasFailsKeeps(s, t, node, level, ctx);
    }
  }

  // ---------- Iterators ----------

  /** What is ahead of an iterator is yielded next, or still ahead of what is. */
  lemma {:induction false} AheadAdvances(h: Heap, visited: seq<int>, p: nat, m: int)
    requires Inv(h) && p < |h.rows[0]| && Ahead(h, h.rows[0][p], visited, m)
    ensures var n := Load(h, h.rows[0][p], 0); Ahead(h, n, if n == NULL then visited else visited + [n], m)
  {
    var row := h.rows[0];
    assert RowOk(h, 0) && PointsOn(h, 0, row, p);
    if m !in visited {
      var i, j :| 0 <= i < j < |row| && row[i] == row[p] && row[j] == m;
      assert Apart(row, i, p);
      assert row[p + 1..][j - p - 1] == m;
      AfterIsNext(row, p, m);
    }
  }

  lemma {:induction false} CursorAdvances(h: Heap, from: Option<Bytes>, current: int, visited: seq<int>, must: set<int>)
    requires Inv(h) && CursorOk(h, from, current, visited, must) && current != NULL
    ensures var n := Load(h, current, 0);
      CursorOk(h, from, n, if n == NULL then visited else visited + [n], must)
  {
    assert RowOk(h, 0) && Yielded(h, from, visited[|visited| - 1]);
    var p := Position(h.rows[0], current);
    MustAdvances(h, visited, must, p);
    YieldAdvances(h, from, visited, p);
  }

  lemma {:induction false} MustAdvances(h: Heap, visited: seq<int>, must: set<int>, p: nat)
    requires Inv(h) && p < |h.rows[0]| && forall m | m in must :: Ahead(h, h.rows[0][p], visited, m)
    ensures var n := Load(h, h.rows[0][p], 0);
      forall m | m in must :: Ahead(h, n, if n == NULL then visited else visited + [n], m)
  {
    forall m | m in must
      ensures var n := Load(h, h.rows[0][p], 0); Ahead(h, n, if n == NULL then visited else visited + [n], m)
    {
      assert Ahead(h, h.rows[0][p], visited, m);
      AheadAdvances(h, visited, p, m);
    }
  }

  lemma {:induction false} YieldAdvances(h: Heap, from: Option<Bytes>, visited: seq<int>, p: nat)
    requires Inv(h) && p < |h.rows[0]| && |visited| > 0 && visited[|visited| - 1] == h.rows[0][p]
    requires forall i | 0 <= i < |visited| :: Yielded(h, from, visited[i])
    requires forall i, j | 0 <= i < j < |visited| :: YieldedBefore(h, visited, i, j)
    ensures var n := Load(h, h.rows[0][p], 0); var visited' := if n == NULL then visited else visited + [n];
      && (forall i | 0 <= i < |visited'| :: Yielded(h, from, visited'[i]))
      && (forall i, j | 0 <= i < j < |visited'| :: YieldedBefore(h, visited', i, j))
  {
    assert RowOk(h, 0) && PointsOn(h, 0, h.rows[0], p);
    if p + 1 < |h.rows[0]| {
      NextIsYielded(h, from, visited, p);
    }
  }

  /** The follower of the last node yielded comes after everything yielded so far. */
  lemma {:induction false} NextIsYielded(h: Heap, from: Option<Bytes>, visited: seq<int>, p: nat)
    requires Inv(h) && p + 1 < |h.rows[0]| && |visited| > 0 && visited[|visited| - 1] == h.rows[0][p]
    requires forall i | 0 <= i < |visited| :: Yielded(h, from, visited[i])
    requires forall i, j | 0 <= i < j < |visited| :: YieldedBefore(h, visited, i, j)
    ensures var visited' := visited + [h.rows[0][p + 1]];
      && (forall i | 0 <= i < |visited'| :: Yielded(h, from, visited'[i]))
      && (forall i, j | 0 <= i < j < |visited'| :: YieldedBefore(h, visited', i, j))
  {
    var row := h.rows[0];
    var n := row[p + 1];
    var visited' := visited + [n];
    assert RowOk(h, 0) && Apart(row, 0, p + 1) && Apart(row, 0, p);
    assert Yielded(h, from, row[p]) && InOrder(h, row, p, p + 1);
    if from.Some? {
      assert OrderLaws(h.less, h.nodes[n].key, h.nodes[row[p]].key, from.value);
    }
    assert Before(row, row[p], n);
    forall i, j | 0 <= i < j < |visited'|
      ensures YieldedBefore(h, visited', i, j)
    {
      if j < |visited| {
        assert YieldedBefore(h, visited, i, j);
      } else if i < |visited| - 1 {
        assert YieldedBefore(h, visited, i, |visited| - 1);
        BeforeTransitive(row, visited[i], row[p], n);
      }
    }
  }

  lemma {:induction false} BeforeTransitive(row: seq<int>, a: int, b: int, c: int)
    requires Distinct(row) && Before(row, a, b) && Before(row, b, c)
    ensures Before(row, a, c)
  {
    var i, j :| 0 <= i < j < |row| && row[i] == a && row[j] == b;
    var j', k :| 0 <= j' < k < |row| && row[j'] == b && row[k] == c;
    assert Apart(row, j, j');
  }

  lemma {:induction false} CursorKeeps(s: State, t: nat, from: Option<Bytes>, current: int, visited: seq<int>,
                                       must: set<int>)
    requires StateInv(s) && Running(s, t) && s.pcs[t] == Cursor(from, current, visited, must)
    ensures StateInv(StepCursor(s, t, from, current, visited, must))
  {
    assert ThreadInv(s, t);
    if current != NULL {
      CursorAdvances(s.h, from, current, visited, must);
      var n := Load(s.h, current, 0);
      GotoKeeps(s, t, Cursor(from, n, if n == NULL then visited else visited + [n], must));
    }
  }

  // ---------- Every step ----------

  lemma {:induction false} SearchTickKeeps(s: State, t: nat, height: nat, spurious: bool)
    requires StateInv(s) && Running(s, t) && (s.pcs[t].SkipDown? || s.pcs[t].Walk?)
    ensures StateInv(StepTick(s, t, height, spurious))
  {
    match s.pcs[t]
    case SkipDown(key, goal, level) => SkipDownKeeps(s, t, key, goal, level);
    case Walk(key, goal, level, pred, ctx) => WalkKeeps(s, t, key, goal, level, pred, ctx);
  }

  lemma {:induction false} NodeTickKeeps(s: State, t: nat, height: nat, spurious: bool)
    requires StateInv(s) && Running(s, t) && (s.pcs[t].Draw? || s.pcs[t].Raise? || s.pcs[t].Allocate?)
    ensures StateInv(StepTick(s, t, height, spurious))
  {
    match s.pcs[t]
    case Draw(key, value, found) =>
      if 1 <= height <= MAX_HEIGHT {
        DrawKeeps(s, t, height);
      }
    case Raise(key, value, found, h, seen) => RaiseKeeps(s, t, height, spurious);
    case Allocate(key, value, found, h) =>
      match found {
        case Some(ctx) => AllocateFoundKeeps(s, t, key, value, ctx, h);
        case None => AllocateFirstKeeps(s, t, key, value, h);
      }
  }

  lemma {:induction false} LinkTickKeeps(s: State, t: nat, height: nat, spurious: bool)
    requires StateInv(s) && Running(s, t) && (s.pcs[t].Store? || s.pcs[t].Cas?)
    ensures StateInv(StepTick(s, t, height, spurious))
  {
    LinkTickIsTick(s, t, height, spurious);
    if s.pcs[t].Store? {
      StoreKeeps(s, t, s.pcs[t].node, s.pcs[t].level, s.pcs[t].ctx);
    } else {
      CasKeeps(s, t, s.pcs[t].node, s.pcs[t].level, s.pcs[t].ctx);
    }
  }

  ghost function LinkTick(s: State, t: nat): State
    requires Running(s, t) && (s.pcs[t].Store? || s.pcs[t].Cas?)
  {
    var pc := s.pcs[t];
    if pc.Store? then StepStore(s, t, pc.node, pc.level, pc.ctx) else StepCas(s, t, pc.node, pc.level, pc.ctx)
  }

  lemma {:induction false} LinkTickIsTick(s: State, t: nat, height: nat, spurious: bool)
    requires Running(s, t) && (s.pcs[t].Store? || s.pcs[t].Cas?)
    ensures StepTick(s, t, height, spurious) == LinkTick(s, t)
  {
  }

  lemma {:induction false} TickKeeps(s: State, t: nat, height: nat, spurious: bool)
    requires StateInv(s) && Running(s, t)
    ensures StateInv(StepTick(s, t, height, spurious))
  {
    var pc := s.pcs[t];
    if pc.SkipDown? || pc.Walk? {
      SearchTickKeeps(s, t, height, spurious);
    } else if pc.Draw? || pc.Raise? || pc.Allocate? {
      NodeTickKeeps(s, t, height, spurious);
    } else if pc.Store? || pc.Cas? {
      LinkTickKeeps(s, t, height, spurious);
    } else if pc.LoadMax? {
      LoadMaxKeeps(s, t, pc.key, pc.goal);
    } else if pc.Cursor? {
      CursorKeeps(s, t, pc.from, pc.current, pc.visited, pc.must);
    }
  }

  /** One step of any thread keeps the invariant. */
  lemma {:induction false} StepKeeps(s: State, t: nat, a: Action)
    requires StateInv(s)
    ensures StateInv(Step(s, t, a))
  {
    if Running(s, t) {
      match a
      case Call(op) =>
        if s.pcs[t].Idle? {
          CallKeeps(s, t, op);
        }
      case Tick(height, spurious) => TickKeeps(s, t, height, spurious);
      case Close =>
        if s.pcs[t].Cursor? {
          assert ThreadInv(s, t);
          LocalKeeps(s, Goto(s, t, Idle), t);
        }
    }
  }
}
