/**
  Interference: what a step of one thread may do to shared memory leaves every other thread's
  invariant intact.
 */
module SkipListFrame {
  import opened Basics
  import opened Lists
  import opened SkipListHeap
  import opened SkipListMachine
  import opened SkipListInvariant

  /** Row `l` may have grown, but not by `own`, whose unlinked tower slot is untouched. */
  ghost predicate LaterAt(h: Heap, h': Heap, own: int, l: int)
    requires Shape(h) && Shape(h') && 0 <= l < MAX_HEIGHT
  {
    && (forall n | n in h.rows[l] :: n in h'.rows[l])
    && (own in h'.rows[l] ==> own in h.rows[l])
    && (InTower(h, own, l) && own !in h.rows[l] ==> InTower(h', own, l) && h'.next[own][l] == h.next[own][l])
  }

  /** Memory `h'` is `h` after steps of threads other than the owner of `own`. */
  ghost predicate Later(h: Heap, h': Heap, own: int) {
    && Shape(h) && Shape(h')
    && h'.less == h.less && h.nodes <= h'.nodes && h.maxLevel <= h'.maxLevel
    && (forall l | 0 <= l < MAX_HEIGHT :: LaterAt(h, h', own, l))
    && (forall a, b | Before(h.rows[0], a, b) :: Before(h'.rows[0], a, b))
  }

  lemma {:induction false} LaterCtx(h: Heap, h': Heap, own: int, key: Bytes, ctx: Ctx, low: int)
    requires Later(h, h', own) && 0 <= low && CtxOk(h, key, ctx, low)
    ensures CtxOk(h', key, ctx, low)
  {
    forall l | low <= l < MAX_HEIGHT
      ensures CtxAt(h', key, ctx, l)
    {
      assert CtxAt(h, key, ctx, l) && LaterAt(h, h', own, l);
    }
  }

  lemma {:induction false} LaterOwn(h: Heap, h': Heap, node: int, level: int)
    requires Later(h, h', node) && OwnOk(h, node, level)
    ensures OwnOk(h', node, level) && Load(h', node, level) == Load(h, node, level)
  {
    forall l | 0 <= l < MAX_HEIGHT
      ensures OwnAt(h', node, level, l)
    {
      assert OwnAt(h, node, level, l) && LaterAt(h, h', node, l);
    }
    assert OwnAt(h, node, level, level) && LaterAt(h, h', node, level);
  }

  lemma {:induction false} LaterCursor(h: Heap, h': Heap, own: int, from: Option<Bytes>, current: int,
                                       visited: seq<int>, must: set<int>)
    requires Later(h, h', own) && CursorOk(h, from, current, visited, must)
    ensures CursorOk(h', from, current, visited, must)
  {
    assert LaterAt(h, h', own, 0);
    forall i | 0 <= i < |visited|
      ensures Yielded(h', from, visited[i])
    {
      assert Yielded(h, from, visited[i]);
    }
    forall i, j | 0 <= i < j < |visited|
      ensures YieldedBefore(h', visited, i, j)
    {
      assert YieldedBefore(h, visited, i, j);
    }
    forall n | n in must
      ensures Ahead(h', current, visited, n)
    {
      assert Ahead(h, current, visited, n);
    }
  }

  /** No other thread's step disturbs a thread's invariant. */
  lemma {:induction false} LaterPc(h: Heap, h': Heap, pc: Pc)
    requires Later(h, h', Own(pc)) && PcInv(h, pc)
    ensures PcInv(h', pc)
  {
    var own := Own(pc);
    match pc
    case Idle =>
    case LoadMax(key, goal) => LaterGoal(h, h', key, goal);
    case SkipDown(key, goal, level) => LaterGoal(h, h', key, goal);
    case Walk(key, goal, level, pred, ctx) =>
      assert LaterAt(h, h', own, level);
      LaterCtx(h, h', own, key, ctx, level + 1);
      LaterGoal(h, h', key, goal);
    case Draw(key, _, found) => LaterFound(h, h', own, key, found);
    case Raise(key, _, found, _, _) => LaterFound(h, h', own, key, found);
    case Allocate(key, _, found, _) => LaterFound(h, h', own, key, found);
    case Store(node, level, ctx) =>
      LaterOwn(h, h', node, level);
      LaterCtx(h, h', node, h.nodes[node].key, ctx, level);
    case Cas(node, level, ctx) =>
      LaterOwn(h, h', node, level);
      LaterCtx(h, h', node, h.nodes[node].key, ctx, level);
    case Cursor(from, current, visited, must) =>
      LaterCursor(h, h', own, from, current, visited, must);
  }

  lemma {:induction false} LaterGoal(h: Heap, h': Heap, key: Bytes, goal: Goal)
    requires Later(h, h', if goal.Link? then goal.node else NULL) && GoalOk(h, key, goal)
    ensures GoalOk(h', key, goal) && (Retrying(h', goal) <==> Retrying(h, goal))
  {
    if goal.Link? {
      LaterOwn(h, h', goal.node, goal.level);
    }
  }

  lemma {:induction false} LaterFound(h: Heap, h': Heap, own: int, key: Bytes, found: Option<Ctx>)
    requires Later(h, h', own) && FoundOk(h, key, found)
    ensures FoundOk(h', key, found)
  {
    if found.Some? {
      LaterCtx(h, h', own, key, found.value, 0);
    }
  }

  lemma {:induction false} LaterJob(h: Heap, h': Heap, pc: Pc)
    requires Shape(h) && h.nodes <= h'.nodes && PcInv(h, pc)
    ensures PendingJob(h', pc) == PendingJob(h, pc)
  {
  }

  // ---------- Steps that change no row ----------

  lemma {:induction false} ExtendsIsLater(h: Heap, h': Heap, own: int)
    requires Inv(h) && Extends(h, h')
    requires 0 <= own < |h.nodes| ==> h'.next[own] == h.next[own]
    ensures Later(h, h', own)
  {
  }

  lemma {:induction false} ExtendsFreshFrom(h: Heap, h': Heap, key: Bytes, ctx: Ctx, low: int)
    requires Inv(h) && Extends(h, h') && 0 <= low
    requires CtxOk(h, key, ctx, low) && FreshFrom(h, ctx, low)
    ensures FreshFrom(h', ctx, low)
  {
    forall l | low <= l < MAX_HEIGHT
      ensures FreshAt(h', ctx, l)
    {
      assert CtxAt(h, key, ctx, l) && FreshAt(h, ctx, l) && RowOk(h, l);
      var i := Position(h.rows[l], Pred(ctx, l));
      assert InTower(h, Pred(ctx, l), l);
    }
  }

  lemma {:induction false} FreshCtxOk(h: Heap, key: Bytes)
    requires Inv(h)
    ensures CtxOk(h, key, FreshCtx(), 0)
  {
    forall l | 0 <= l < MAX_HEIGHT
      ensures CtxAt(h, key, FreshCtx(), l)
    {
      assert RowOk(h, l) && h.rows[l][0] == HEAD;
    }
  }

  lemma {:induction false} ExtendsFresh(h: Heap, h': Heap, pc: Pc)
    requires Inv(h) && Extends(h, h') && PcInv(h, pc) && Fresh(h, pc)
    ensures Fresh(h', pc)
  {
    match pc
    case SkipDown(key, _, level) =>
      FreshCtxOk(h, key);
      ExtendsFreshFrom(h, h', key, FreshCtx(), level);
    case Walk(key, _, level, _, ctx) => ExtendsFreshFrom(h, h', key, ctx, level + 1);
    case Draw(key, _, found) => if found.Some? { ExtendsFreshFrom(h, h', key, found.value, 0); }
    case Raise(key, _, found, _, _) => if found.Some? { ExtendsFreshFrom(h, h', key, found.value, 0); }
    case Allocate(key, _, found, _) => if found.Some? { ExtendsFreshFrom(h, h', key, found.value, 0); }
    case Store(node, level, ctx) => ExtendsFreshFrom(h, h', h.nodes[node].key, ctx, level);
    case Cas(node, level, ctx) => ExtendsFreshFrom(h, h', h.nodes[node].key, ctx, level);
    case _ =>
  }

  // ---------- The step that links a node ----------

  lemma {:induction false} InsertKeepsBefore(row: seq<int>, p: nat, x: int, a: int, b: int)
    requires p <= |row| && Before(row, a, b)
    ensures Before(InsertAt(row, p, x), a, b)
  {
    var i, j :| 0 <= i < j < |row| && row[i] == a && row[j] == b;
    var row' := InsertAt(row, p, x);
    var i' := if i < p then i else i + 1;
    var j' := if j < p then j else j + 1;
    assert row'[i'] == a && row'[j'] == b;
  }

  lemma {:induction false} LinkIsLater(h: Heap, level: int, p: nat, node: int, own: int)
    requires CanLink(h, level, p, node) && own != node
    ensures Later(h, LinkAfter(h, level, p, node), own)
  {
    var h' := LinkAfter(h, level, p, node);
    LinkKeepsInv(h, level, p, node);
    assert RowOk(h, level);
    StoreCellFrame(h, h.rows[level][p], level, node);
    forall l | 0 <= l < MAX_HEIGHT
      ensures LaterAt(h, h', own, l)
    {
      forall n
        ensures n in h'.rows[level] <==> n == node || n in h.rows[level]
      {
        InsertAtMember(h.rows[level], p + 1, node, n);
      }
    }
    forall a, b | Before(h.rows[0], a, b)
      ensures Before(h'.rows[0], a, b)
    {
      if level == 0 {
        InsertKeepsBefore(h.rows[0], p + 1, node, a, b);
      }
    }
  }
}
