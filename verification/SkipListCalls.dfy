/**
  What the skip list does with each call, told from the schedule and whatever other threads do: an insert
  that is over has linked a node with its key and value on every level below the node's height, a seek that
  is over is an iterator with the seek key for its bound, and each has logged its effect.
 */
module SkipListCalls {
  import opened Basics
  import opened SkipListHeap
  import opened SkipListMachine
  import opened SkipListInvariant
  import opened SkipListSteps
  import opened SkipListTheorems

  // ---------- Rows and nodes only grow ----------

  /** Node `n` is at least number `from` and holds the key and value. */
  ghost predicate Holds(h: Heap, n: int, key: Bytes, value: Bytes, from: nat) {
    from <= n < |h.nodes| && h.nodes[n].key == key && h.nodes[n].value == value
  }

  /** Node `n` is linked on every level below its height. */
  ghost predicate Linked(h: Heap, n: int)
    requires |h.rows| == MAX_HEIGHT && 0 <= n < |h.nodes|
  {
    h.nodes[n].height <= MAX_HEIGHT && forall l | 0 <= l < h.nodes[n].height :: n in h.rows[l]
  }

  ghost predicate RowsGrow(h: Heap, h': Heap) {
    && h.nodes <= h'.nodes && |h.rows| == |h'.rows| == MAX_HEIGHT
    && forall l, n | 0 <= l < MAX_HEIGHT && n in h.rows[l] :: n in h'.rows[l]
  }

  lemma {:induction false} CasGrowsRows(s: State, t: nat, node: int, level: nat, ctx: Ctx)
    requires Inv(s.h) && Running(s, t)
    ensures |StepCas(s, t, node, level, ctx).h.rows| == MAX_HEIGHT
    ensures forall l, n | 0 <= l < MAX_HEIGHT && n in s.h.rows[l] :: n in StepCas(s, t, node, level, ctx).h.rows[l]
  {
    var h' := StepCas(s, t, node, level, ctx).h;
    forall l, n | 0 <= l < MAX_HEIGHT && n in s.h.rows[l]
      ensures n in h'.rows[l]
    {
      if level < |s.h.rows| && Pred(ctx, level) in s.h.rows[level] {
        InsertAtMember(s.h.rows[level], IndexOf(s.h.rows[level], Pred(ctx, level)) + 1, node, n);
      }
    }
  }

  lemma {:induction false} StepGrowsRows(s: State, t: nat, a: Action)
    requires StateInv(s)
    ensures RowsGrow(s.h, Step(s, t, a).h)
  {
    if Running(s, t) {
      StepIsStep(s, t, a);
      if a.Tick? && s.pcs[t].Cas? {
        CasGrowsRows(s, t, s.pcs[t].node, s.pcs[t].level, s.pcs[t].ctx);
        TickIsCas(s, t, a.height, a.spurious);
      } else if Step(s, t, a).links == s.links {
        assert Step(s, t, a).h.rows == s.h.rows;
      } else {
        OnlyCasLinks(s, t, a);
      }
    }
  }

  lemma {:induction false} TickIsCas(s: State, t: nat, height: nat, spurious: bool)
    requires Running(s, t) && s.pcs[t].Cas?
    ensures Step(s, t, Tick(height, spurious)) == StepCas(s, t, s.pcs[t].node, s.pcs[t].level, s.pcs[t].ctx)
  {
  }

  lemma {:induction false} OnlyCasLinks(s: State, t: nat, a: Action)
    requires Running(s, t) && !(a.Tick? && s.pcs[t].Cas?)
    ensures Step(s, t, a).links == s.links
  {
  }

  // ---------- Where a call stands ----------

  ghost predicate LinkedNode(h: Heap, n: int, key: Bytes, value: Bytes, from: nat) {
    |h.rows| == MAX_HEIGHT && Holds(h, n, key, value, from) && Linked(h, n)
  }

  ghost predicate Searches(pc: Pc, key: Bytes, goal: Goal) {
    (pc.LoadMax? || pc.SkipDown? || pc.Walk?) && pc.key == key && pc.goal == goal
  }

  ghost predicate InsertStands(h: Heap, pc: Pc, key: Bytes, value: Bytes, from: nat) {
    match pc
    case Idle => exists n :: LinkedNode(h, n, key, value, from)
    case Draw(k, v, _) => k == key && v == value
    case Raise(k, v, _, _, _) => k == key && v == value
    case Allocate(k, v, _, _) => k == key && v == value
    case Store(n, _, _) => Holds(h, n, key, value, from)
    case Cas(n, _, _) => Holds(h, n, key, value, from)
    case Cursor(_, _, _, _) => false
    case _ => pc.key == key && (pc.goal == Insert(value) || (pc.goal.Link? && Holds(h, pc.goal.node, key, value, from)))
  }

  /** The call was made when the list had `from` nodes, and has not gone anywhere but to its answer. */
  ghost predicate Standing(h: Heap, pc: Pc, op: Op, from: nat) {
    match op
    case OpLookup(key) => Searches(pc, key, Lookup) || pc.Idle?
    case OpSeek(key) => Searches(pc, key, Seek) || (pc.Cursor? && pc.from == Some(key))
    case OpFirst => pc.Cursor? && pc.from == None
    case OpInsert(key, value) => InsertStands(h, pc, key, value, from)
    case OpInsertWith(key, value) => InsertStands(h, pc, key, value, from)
  }

  lemma {:induction false} CallStands(s: State, t: nat, op: Op)
    requires Running(s, t) && s.pcs[t].Idle?
    ensures var s' := Step(s, t, Call(op)); Running(s', t) && Standing(s'.h, s'.pcs[t], op, |s.h.nodes|)
  {
  }

  /** What other threads do leaves a call where it stands. */
  lemma {:induction false} GrowthStands(h: Heap, h': Heap, pc: Pc, op: Op, from: nat)
    requires RowsGrow(h, h') && Standing(h, pc, op, from)
    ensures Standing(h', pc, op, from)
  {
    if (op.OpInsert? || op.OpInsertWith?) && pc.Idle? {
      var n :| LinkedNode(h, n, op.key, op.value, from);
      assert LinkedNode(h', n, op.key, op.value, from);
    }
  }

  // ---------- The thread's own steps ----------

  lemma {:induction false} EndSearchStands(s: State, t: nat, key: Bytes, goal: Goal, ctx: Ctx, op: Op, from: nat)
    requires Running(s, t) && Standing(s.h, LoadMax(key, goal), op, from)
    ensures var s' := EndSearch(s, t, key, goal, ctx); Running(s', t) && Standing(s'.h, s'.pcs[t], op, from)
  {
  }

  lemma {:induction false} SearchStands(s: State, t: nat, height: nat, spurious: bool, op: Op, from: nat)
    requires Running(s, t) && (s.pcs[t].LoadMax? || s.pcs[t].SkipDown? || s.pcs[t].Walk?)
    requires Standing(s.h, s.pcs[t], op, from)
    ensures var s' := StepTick(s, t, height, spurious); Running(s', t) && Standing(s'.h, s'.pcs[t], op, from)
  {
    match s.pcs[t]
    case LoadMax(_, _) =>
    case SkipDown(key, goal, level) => EndSearchStands(s, t, key, goal, FreshCtx(), op, from);
    case Walk(key, goal, level, pred, ctx) =>
      EndSearchStands(s, t, key, goal, Record(ctx, level, pred, Load(s.h, pred, level)), op, from);
  }

  /** Drawing a height, raising the level, allocating. */
  lemma {:induction false} PrepareStands(s: State, t: nat, height: nat, spurious: bool, op: Op, from: nat)
    requires Running(s, t) && (s.pcs[t].Draw? || s.pcs[t].Raise? || s.pcs[t].Allocate?)
    requires Standing(s.h, s.pcs[t], op, from) && from <= |s.h.nodes|
    ensures var s' := StepTick(s, t, height, spurious); Running(s', t) && Standing(s'.h, s'.pcs[t], op, from)
  {
  }

  /** The last link of a node completes it. */
  lemma {:induction false} LastLink(h: Heap, node: int, level: nat, ctx: Ctx)
    requires Inv(h) && PcInv(h, Cas(node, level, ctx)) && FreshAt(h, ctx, level) && level + 1 == h.nodes[node].height
    ensures var h' := LinkNode(h, level, Pred(ctx, level), node);
      |h'.rows| == MAX_HEIGHT && h'.nodes == h.nodes && Linked(h', node)
  {
    CasMayLink(h, node, level, ctx);
    var h' := LinkNode(h, level, Pred(ctx, level), node);
    var p := IndexOf(h.rows[level], Pred(ctx, level));
    InsertAtMember(h.rows[level], p + 1, node, node);
    forall l | 0 <= l < h.nodes[node].height
      ensures node in h'.rows[l]
    {
      assert OwnAt(h, node, level, l);
    }
  }

  lemma {:induction false} CasStands(s: State, t: nat, node: int, level: nat, ctx: Ctx, op: Op, from: nat)
    requires Inv(s.h) && Running(s, t) && s.pcs[t] == Cas(node, level, ctx) && PcInv(s.h, s.pcs[t])
    requires Standing(s.h, s.pcs[t], op, from)
    ensures var s' := StepCas(s, t, node, level, ctx); Running(s', t) && Standing(s'.h, s'.pcs[t], op, from)
  {
    if FreshAt(s.h, ctx, level) && level + 1 == s.h.nodes[node].height {
      LastLink(s.h, node, level, ctx);
      var h' := StepCas(s, t, node, level, ctx).h;
      assert LinkedNode(h', node, op.key, op.value, from);
    }
  }

  lemma {:induction false} OtherTickStands(s: State, t: nat, height: nat, spurious: bool, op: Op, from: nat)
    requires Running(s, t) && (s.pcs[t].Idle? || s.pcs[t].Store? || s.pcs[t].Cursor?)
    requires Standing(s.h, s.pcs[t], op, from)
    ensures var s' := StepTick(s, t, height, spurious); Running(s', t) && Standing(s'.h, s'.pcs[t], op, from)
  {
  }

  lemma {:induction false} TickStands(s: State, t: nat, height: nat, spurious: bool, op: Op, from: nat)
    requires StateInv(s) && Running(s, t) && Standing(s.h, s.pcs[t], op, from) && from <= |s.h.nodes|
    ensures var s' := Step(s, t, Tick(height, spurious)); Running(s', t) && Standing(s'.h, s'.pcs[t], op, from)
  {
    var pc := s.pcs[t];
    if pc.LoadMax? || pc.SkipDown? || pc.Walk? {
      SearchStands(s, t, height, spurious, op, from);
    } else if pc.Draw? || pc.Raise? || pc.Allocate? {
      PrepareStands(s, t, height, spurious, op, from);
    } else if pc.Cas? {
      assert ThreadInv(s, t);
      CasStands(s, t, pc.node, pc.level, pc.ctx, op, from);
      TickIsCas(s, t, height, spurious);
    } else {
      OtherTickStands(s, t, height, spurious, op, from);
    }
  }

  // ---------- Runs ----------

  /** Thread `t` made the call in step `i` and has only run since. */
  ghost predicate CalledAt(less: Less, threads: nat, schedule: Schedule, t: nat, i: nat, op: Op) {
    && i < |schedule| && schedule[i] == (t, Call(op))
    && Running(Run(less, threads, schedule[..i]), t) && Run(less, threads, schedule[..i]).pcs[t].Idle?
    && forall k | i < k < |schedule| && schedule[k].0 == t :: schedule[k].1.Tick?
  }

  /** The number of nodes when step `i` was taken. */
  ghost function NodesAt(less: Less, threads: nat, schedule: Schedule, i: nat): nat
    requires i <= |schedule|
  {
    |Run(less, threads, schedule[..i]).h.nodes|
  }

  lemma {:induction false} StepStands(s: State, u: nat, a: Action, t: nat, op: Op, from: nat)
    requires StateInv(s) && Running(s, t) && Standing(s.h, s.pcs[t], op, from) && from <= |s.h.nodes|
    requires u == t ==> a.Tick?
    ensures var s' := Step(s, u, a);
      Running(s', t) && Standing(s'.h, s'.pcs[t], op, from) && from <= |s'.h.nodes|
  {
    StepGrowsRows(s, u, a);
    if u == t {
      TickStands(s, t, a.height, a.spurious, op, from);
    } else {
      StepMovesOneThread(s, u, a, t);
      GrowthStands(s.h, Step(s, u, a).h, s.pcs[t], op, from);
    }
  }

  /** In every run, a thread keeps to the call it made, whatever others do. */
  lemma {:induction false} CallIsFollowed(less: Less, threads: nat, schedule: Schedule, t: nat, i: nat, op: Op)
    requires StrictWeakOrder(less) && CalledAt(less, threads, schedule, t, i, op)
    ensures var s := Run(less, threads, schedule);
      && Running(s, t) && NodesAt(less, threads, schedule, i) <= |s.h.nodes|
      && Standing(s.h, s.pcs[t], op, NodesAt(less, threads, schedule, i))
  {
    var before, last := schedule[..|schedule| - 1], schedule[|schedule| - 1];
    if |schedule| == i + 1 {
      CallStands(Run(less, threads, before), t, op);
      StepIsStep(Run(less, threads, before), t, Call(op));
    } else {
      assert before[..i] == schedule[..i];
      CallIsFollowed(less, threads, before, t, i, op);
      RunKeeps(less, threads, before);
      StepStands(Run(less, threads, before), last.0, last.1, t, op, NodesAt(less, threads, schedule, i));
    }
  }

  /** A node of height at most 8 that is on the list of every level below its height, as the pointers give it. */
  ghost predicate OnItsLevels(h: Heap, n: int)
    requires 0 <= n < |h.nodes|
  {
    1 <= h.nodes[n].height <= 8 && forall l | 0 <= l < h.nodes[n].height :: VisitedAt(h, l, n)
  }

  lemma {:induction false} LinkedIsVisited(h: Heap, n: int)
    requires Inv(h) && 0 <= n < |h.nodes| && Linked(h, n)
    ensures OnItsLevels(h, n)
  {
    forall l | 0 <= l < h.nodes[n].height
      ensures VisitedAt(h, l, n)
    {
      var k := Position(h.rows[l], n);
      ChaseIsRow(h, l, k);
    }
  }

  /** In every run, an insert that is over has linked a node that did not exist when it was called, with its key
      and value, on every level below the node's height. */
  lemma {:induction false} InsertLinksItsNode(less: Less, threads: nat, schedule: Schedule, t: nat, i: nat, op: Op)
    returns (n: nat)
    requires StrictWeakOrder(less) && CalledAt(less, threads, schedule, t, i, op) && (op.OpInsert? || op.OpInsertWith?)
    requires var s := Run(less, threads, schedule); Running(s, t) && s.pcs[t].Idle?
    ensures var h := Run(less, threads, schedule).h;
      Holds(h, n, op.key, op.value, NodesAt(less, threads, schedule, i)) && OnItsLevels(h, n)
  {
    CallIsFollowed(less, threads, schedule, t, i, op);
    RunKeeps(less, threads, schedule);
    var h := Run(less, threads, schedule).h;
    n :| LinkedNode(h, n, op.key, op.value, NodesAt(less, threads, schedule, i));
    LinkedIsVisited(h, n);
  }

  /** In every run, a seek or an iteration that was called ends in an iterator with its bound, and a lookup in an
      idle thread. */
  lemma {:induction false} IteratorHasItsBound(less: Less, threads: nat, schedule: Schedule, t: nat, i: nat, op: Op)
    requires StrictWeakOrder(less) && CalledAt(less, threads, schedule, t, i, op) && (op.OpSeek? || op.OpFirst?)
    ensures var s := Run(less, threads, schedule);
      && Running(s, t) && !s.pcs[t].Idle?
      && (op.OpSeek? ==> Searches(s.pcs[t], op.key, Seek) || (s.pcs[t].Cursor? && s.pcs[t].from == Some(op.key)))
      && (op.OpFirst? ==> s.pcs[t].Cursor? && s.pcs[t].from == None)
  {
    CallIsFollowed(less, threads, schedule, t, i, op);
  }

  /** Dropping an iterator leaves its thread idle and everything else as it was. */
  lemma {:induction false} CloseEnds(less: Less, threads: nat, schedule: Schedule, t: nat)
    requires var s := Run(less, threads, schedule); Running(s, t) && s.pcs[t].Cursor?
    ensures var s, s' := Run(less, threads, schedule), Run(less, threads, schedule + [(t, Close)]);
      s' == s.(pcs := s'.pcs) && Running(s', t) && s'.pcs[t].Idle?
      && forall u | 0 <= u < |s.pcs| && u != t :: s'.pcs[u] == s.pcs[u]
  {
    RunAppend(less, threads, schedule, t, Close);
  }
}
