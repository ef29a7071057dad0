/**
  The invariant of the concurrent skip list: what holds of shared memory and of every thread's
  locals between any two steps.
 */
module SkipListInvariant {
  import opened Basics
  import opened Lists
  import opened SkipListHeap
  import opened SkipListMachine
  import opened SkipListSpec

  // ---------- Traversal contexts ----------

  ghost predicate CtxAt(h: Heap, key: Bytes, ctx: Ctx, l: int)
    requires Shape(h) && 0 <= l < MAX_HEIGHT
  {
    PredOk(h, l, key, Pred(ctx, l)) && (Succ(ctx, l) != NULL ==> SuccOk(h, l, key, Succ(ctx, l)))
  }

  /** At each level from `low` up, the context brackets `key` between linked nodes. */
  ghost predicate CtxOk(h: Heap, key: Bytes, ctx: Ctx, low: int)
    requires Shape(h) && 0 <= low
  {
    && |ctx.preds| == |ctx.succs| == MAX_HEIGHT
    && (forall l | low <= l < MAX_HEIGHT :: CtxAt(h, key, ctx, l))
  }

  ghost predicate FoundOk(h: Heap, key: Bytes, found: Option<Ctx>)
    requires Shape(h)
  {
    found.Some? ==> CtxOk(h, key, found.value, 0)
  }

  // ---------- A node that a thread is linking ----------

  ghost predicate OwnAt(h: Heap, node: int, level: int, l: int)
    requires Shape(h) && 0 < node < |h.nodes| && 0 <= l < MAX_HEIGHT
  {
    && (l < level ==> node in h.rows[l])
    && (l >= level ==> node !in h.rows[l])
    && (level < l < h.nodes[node].height ==> h.next[node][l] == NULL)
  }

  /** `node` is linked exactly below `level`; its tower is null above `level`, and at `level` it is
      null or points to a linked node that does not sort before it. */
  ghost predicate OwnOk(h: Heap, node: int, level: int)
    requires Shape(h)
  {
    && 0 < node < |h.nodes| && 0 <= level < h.nodes[node].height <= h.maxLevel
    && (forall l | 0 <= l < MAX_HEIGHT :: OwnAt(h, node, level, l))
    && (h.next[node][level] != NULL ==> SuccOk(h, level, h.nodes[node].key, h.next[node][level]))
  }

  ghost predicate GoalOk(h: Heap, key: Bytes, goal: Goal)
    requires Shape(h)
  {
    goal.Link? ==> OwnOk(h, goal.node, goal.level) && h.nodes[goal.node].key == key
  }

  /** A retry whose tower slot already holds a successor from an earlier search. */
  ghost predicate Retrying(h: Heap, goal: Goal) {
    goal.Link? && Load(h, goal.node, goal.level) != NULL
  }

  // ---------- Iterators ----------

  ghost predicate Before(row: seq<int>, a: int, b: int) {
    exists i, j | 0 <= i < j < |row| :: row[i] == a && row[j] == b
  }

  ghost predicate Yielded(h: Heap, from: Option<Bytes>, n: int)
    requires Shape(h)
  {
    n in h.rows[0] && 0 < n < |h.nodes| && (from.Some? ==> !h.less(h.nodes[n].key, from.value))
  }

  ghost predicate Ahead(h: Heap, current: int, visited: seq<int>, n: int)
    requires Shape(h)
  {
    n in visited || (current != NULL && Before(h.rows[0], current, n))
  }

  ghost predicate YieldedBefore(h: Heap, visited: seq<int>, i: int, j: int)
    requires Shape(h) && 0 <= i < |visited| && 0 <= j < |visited|
  {
    Before(h.rows[0], visited[i], visited[j])
  }

  ghost predicate CursorOk(h: Heap, from: Option<Bytes>, current: int, visited: seq<int>, must: set<int>)
    requires Shape(h)
  {
    && (forall i | 0 <= i < |visited| :: Yielded(h, from, visited[i]))
    && (forall i, j | 0 <= i < j < |visited| :: YieldedBefore(h, visited, i, j))
    && (current != NULL ==> |visited| > 0 && visited[|visited| - 1] == current)
    && (forall n | n in must :: Ahead(h, current, visited, n))
  }

  // ---------- Threads ----------

  ghost predicate PcInv(h: Heap, pc: Pc)
    requires Shape(h)
  {
    match pc
    case Idle => true
    case LoadMax(key, goal) => GoalOk(h, key, goal)
    case SkipDown(key, goal, level) =>
      && 1 <= level <= h.maxLevel && GoalOk(h, key, goal)
      && (Retrying(h, goal) ==> goal.level < level)
    case Walk(key, goal, level, pred, ctx) =>
      && level < MAX_HEIGHT && PredOk(h, level, key, pred) && CtxOk(h, key, ctx, level + 1) && GoalOk(h, key, goal)
      && (Retrying(h, goal) ==> goal.level <= level || Succ(ctx, goal.level) != NULL)
    case Draw(key, _, found) => FoundOk(h, key, found)
    case Raise(key, _, found, height, seen) => FoundOk(h, key, found) && 1 <= seen < height <= MAX_HEIGHT
    case Allocate(key, _, found, height) => FoundOk(h, key, found) && 1 <= height <= h.maxLevel
    case Store(node, level, ctx) =>
      && OwnOk(h, node, level) && CtxOk(h, h.nodes[node].key, ctx, level)
      && (h.next[node][level] != NULL ==> Succ(ctx, level) != NULL)
    case Cas(node, level, ctx) =>
      && OwnOk(h, node, level) && CtxOk(h, h.nodes[node].key, ctx, level)
      && h.next[node][level] == Succ(ctx, level)
    case Cursor(from, current, visited, must) => CursorOk(h, from, current, visited, must)
  }

  /** The allocated but not fully linked node of a thread, or null. */
  ghost function Own(pc: Pc): int {
    match pc
    case LoadMax(_, Link(node, _)) => node
    case SkipDown(_, Link(node, _), _) => node
    case Walk(_, Link(node, _), _, _, _) => node
    case Store(node, _, _) => node
    case Cas(node, _, _) => node
    case _ => NULL
  }

  ghost predicate FreshAt(h: Heap, ctx: Ctx, l: int) {
    Load(h, Pred(ctx, l), l) == Succ(ctx, l)
  }

  /** The pointers the thread's context recorded, from `low` up, are still what memory holds. */
  ghost predicate FreshFrom(h: Heap, ctx: Ctx, low: int) {
    forall l | low <= l < MAX_HEIGHT :: FreshAt(h, ctx, l)
  }

  ghost predicate Fresh(h: Heap, pc: Pc) {
    match pc
    case SkipDown(_, _, level) => FreshFrom(h, FreshCtx(), level)
    case Walk(_, _, level, _, ctx) => FreshFrom(h, ctx, level + 1)
    case Draw(_, _, found) => found.Some? ==> FreshFrom(h, found.value, 0)
    case Raise(_, _, found, _, _) => found.Some? ==> FreshFrom(h, found.value, 0)
    case Allocate(_, _, found, _) => found.Some? ==> FreshFrom(h, found.value, 0)
    case Store(_, level, ctx) => FreshFrom(h, ctx, level)
    case Cas(_, level, ctx) => FreshFrom(h, ctx, level)
    case _ => true
  }

  ghost function NodeJob(h: Heap, node: int): seq<Job> {
    if EntryAt(h, node).Some? then [Add(EntryAt(h, node).value)] else []
  }

  ghost function GoalJob(h: Heap, key: Bytes, goal: Goal): seq<Job> {
    match goal
    case Lookup => [Find(key)]
    case Seek => [Find(key)]
    case Insert(value) => [Add(Entry(key, value))]
    case Link(node, level) => if level == 0 then NodeJob(h, node) else []
  }

  /** The job of the current operation, if it has not reached its linearization point. */
  ghost function PendingJob(h: Heap, pc: Pc): seq<Job> {
    match pc
    case Idle => []
    case LoadMax(key, goal) => GoalJob(h, key, goal)
    case SkipDown(key, goal, _) => GoalJob(h, key, goal)
    case Walk(key, goal, _, _, _) => GoalJob(h, key, goal)
    case Draw(key, value, _) => [Add(Entry(key, value))]
    case Raise(key, value, _, _, _) => [Add(Entry(key, value))]
    case Allocate(key, value, _, _) => [Add(Entry(key, value))]
    case Store(node, level, _) => if level == 0 then NodeJob(h, node) else []
    case Cas(node, level, _) => if level == 0 then NodeJob(h, node) else []
    case Cursor(_, _, _, _) => []
  }

  ghost function EventJob(e: Event): Job {
    match e
    case Inserted(_, entry) => Add(entry)
    case LookedUp(_, key, _) => Find(key)
  }

  /** The jobs that thread `t` has completed according to the log, in log order. */
  ghost function JobsOf(log: seq<Event>, t: nat): seq<Job> {
    if log == [] then []
    else JobsOf(log[..|log| - 1], t) + (if log[|log| - 1].tid == t then [EventJob(log[|log| - 1])] else [])
  }

  ghost predicate TallyInv(s: State, t: nat)
    requires Running(s, t)
  {
    var tally := s.tallies[t];
    && tally.fails <= tally.mark <= Others(s, t)
    && (tally.mark == Others(s, t) ==> Fresh(s.h, s.pcs[t]))
    && JobsOf(s.log, t) + PendingJob(s.h, s.pcs[t]) == tally.calls
  }

  ghost predicate ThreadInv(s: State, t: nat)
    requires Shape(s.h) && Running(s, t)
  {
    PcInv(s.h, s.pcs[t]) && TallyInv(s, t)
  }

  ghost predicate OwnApart(pcs: seq<Pc>, t: nat, u: nat)
    requires t < |pcs| && u < |pcs|
  {
    t != u && Own(pcs[t]) != NULL ==> Own(pcs[t]) != Own(pcs[u])
  }

  ghost predicate LogOk(s: State)
    requires Inv(s.h)
  {
    RowOk(s.h, 0) && Replay(s.h.less, s.log) == Some(Content(s.h))
  }

  ghost predicate StateInv(s: State) {
    && Inv(s.h) && |s.pcs| == |s.tallies|
    && (forall t: nat | t < |s.pcs| :: ThreadInv(s, t))
    && (forall t: nat, u: nat | t < |s.pcs| && u < |s.pcs| :: OwnApart(s.pcs, t, u))
    && LogOk(s)
  }
}
