/** Where the keys of a run come from: every key in memory, and every key a search compares, is one that
    some call of the run brought.  `ok` is any property of keys. */
module SkipListKeys {
  import opened Basics
  import opened Lists
  import opened SkipListHeap
  import opened SkipListMachine
  import opened SkipListInvariant
  import opened SkipListSteps
  import opened SkipListTheorems

  type Keys = Bytes -> bool

  ghost predicate OpKeyOk(op: Op, ok: Keys) {
    op.OpFirst? || ok(op.key)
  }

  ghost predicate ActionOk(a: Action, ok: Keys) { a.Call? ==> OpKeyOk(a.op, ok) }

  /** The keys of all calls satisfy `ok`. */
  ghost predicate CallsOk(schedule: Schedule, ok: Keys) {
    forall i | 0 <= i < |schedule| :: ActionOk(schedule[i].1, ok)
  }

  /** The key a thread works with. */
  ghost predicate PcKeyOk(pc: Pc, ok: Keys) {
    match pc
    case LoadMax(key, _) => ok(key)
    case SkipDown(key, _, _) => ok(key)
    case Walk(key, _, _, _, _) => ok(key)
    case Draw(key, _, _) => ok(key)
    case Raise(key, _, _, _, _) => ok(key)
    case Allocate(key, _, _, _) => ok(key)
    case _ => true
  }

  ghost predicate NodesOk(h: Heap, ok: Keys) {
    forall n | 0 < n < |h.nodes| :: ok(h.nodes[n].key)
  }

  ghost predicate KeysOk(s: State, ok: Keys) {
    NodesOk(s.h, ok) && forall t | 0 <= t < |s.pcs| :: PcKeyOk(s.pcs[t], ok)
  }

  /** What a step of thread `t` must show. */
  ghost predicate StepKeysOk(s': State, t: nat, ok: Keys) {
    t < |s'.pcs| && NodesOk(s'.h, ok) && PcKeyOk(s'.pcs[t], ok)
  }

  lemma {:induction false} EndSearchKeys(s: State, t: nat, key: Bytes, goal: Goal, ctx: Ctx, ok: Keys)
    requires Running(s, t) && NodesOk(s.h, ok) && ok(key)
    ensures StepKeysOk(EndSearch(s, t, key, goal, ctx), t, ok)
  {
  }

  lemma {:induction false} SkipDownKeys(s: State, t: nat, key: Bytes, goal: Goal, level: nat, ok: Keys)
    requires Running(s, t) && NodesOk(s.h, ok) && ok(key)
    ensures StepKeysOk(StepSkipDown(s, t, key, goal, level), t, ok)
  {
    EndSearchKeys(s, t, key, goal, FreshCtx(), ok);
  }

  lemma {:induction false} WalkKeys(s: State, t: nat, key: Bytes, goal: Goal, level: nat, pred: int, ctx: Ctx, ok: Keys)
    requires Running(s, t) && NodesOk(s.h, ok) && ok(key)
    ensures StepKeysOk(StepWalk(s, t, key, goal, level, pred, ctx), t, ok)
  {
    EndSearchKeys(s, t, key, goal, Record(ctx, level, pred, Load(s.h, pred, level)), ok);
  }

  lemma {:induction false} AllocateKeys(s: State, t: nat, key: Bytes, value: Bytes, found: Option<Ctx>, height: nat,
                                        ok: Keys)
    requires Running(s, t) && NodesOk(s.h, ok) && ok(key)
    ensures StepKeysOk(StepAllocate(s, t, key, value, found, height), t, ok)
  {
  }

  /** A lost compare-exchange searches for the key of the thread's own node. */
  lemma {:induction false} CasKeys(s: State, t: nat, node: int, level: nat, ctx: Ctx, ok: Keys)
    requires Running(s, t) && NodesOk(s.h, ok) && 0 < node < |s.h.nodes|
    ensures StepKeysOk(StepCas(s, t, node, level, ctx), t, ok)
  {
    assert ok(s.h.nodes[node].key);
  }

  lemma {:induction false} TickKeys(s: State, t: nat, height: nat, spurious: bool, ok: Keys)
    requires StateInv(s) && Running(s, t) && NodesOk(s.h, ok) && PcKeyOk(s.pcs[t], ok)
    ensures StepKeysOk(StepTick(s, t, height, spurious), t, ok)
  {
    match s.pcs[t]
    case SkipDown(key, goal, level) => SkipDownKeys(s, t, key, goal, level, ok);
    case Walk(key, goal, level, pred, ctx) => WalkKeys(s, t, key, goal, level, pred, ctx, ok);
    case Allocate(key, value, found, h) => AllocateKeys(s, t, key, value, found, h, ok);
    case Cas(node, level, ctx) =>
      OwnedNode(s, t);
      CasKeys(s, t, node, level, ctx, ok);
    case _ => QuietTickKeys(s, t, height, spurious, ok);
  }

  lemma {:induction false} OwnedNode(s: State, t: nat)
    requires StateInv(s) && Running(s, t) && s.pcs[t].Cas?
    ensures 0 < s.pcs[t].node < |s.h.nodes|
  {
    assert ThreadInv(s, t);
    OwnBound(s, t);
  }

  lemma {:induction false} QuietTickKeys(s: State, t: nat, height: nat, spurious: bool, ok: Keys)
    requires Running(s, t) && NodesOk(s.h, ok) && PcKeyOk(s.pcs[t], ok)
    requires !s.pcs[t].SkipDown? && !s.pcs[t].Walk? && !s.pcs[t].Allocate? && !s.pcs[t].Cas?
    ensures StepKeysOk(StepTick(s, t, height, spurious), t, ok)
  {
  }

  lemma {:induction false} StepKeys(s: State, t: nat, a: Action, ok: Keys)
    requires StateInv(s) && KeysOk(s, ok) && ActionOk(a, ok)
    ensures KeysOk(Step(s, t, a), ok)
  {
    if Running(s, t) {
      var s' := Step(s, t, a);
      assert PcKeyOk(s.pcs[t], ok);
      assert StepKeysOk(s', t, ok) by {
        if a.Tick? {
          TickKeys(s, t, a.height, a.spurious, ok);
        }
      }
      StepIsStep(s, t, a);
      OthersKeysOk(s, s', t, a, ok);
    }
  }

  lemma {:induction false} OthersKeysOk(s: State, s': State, t: nat, a: Action, ok: Keys)
    requires KeysOk(s, ok) && StepOf(s, s', t, a) && StepKeysOk(s', t, ok)
    ensures KeysOk(s', ok)
  {
    forall u | 0 <= u < |s'.pcs|
      ensures PcKeyOk(s'.pcs[u], ok)
    {
      assert PcKeyOk(s.pcs[u], ok);
    }
  }

  lemma {:induction false} RunKeys(less: Less, threads: nat, schedule: Schedule, ok: Keys)
    requires StrictWeakOrder(less) && CallsOk(schedule, ok)
    ensures KeysOk(Run(less, threads, schedule), ok)
  {
    if schedule != [] {
      var before, last := schedule[..|schedule| - 1], schedule[|schedule| - 1];
      RunKeys(less, threads, before, ok);
      RunKeeps(less, threads, before);
      assert ActionOk(last.1, ok);
      StepKeys(Run(less, threads, before), last.0, last.1, ok);
    }
  }

  /** The two keys that a thread's next step gives to the comparator. */
  ghost function Compared(h: Heap, pc: Pc): Option<(Bytes, Bytes)> {
    match pc
    case Walk(key, _, level, pred, _) =>
      var curr := Load(h, pred, level);
      if curr == NULL then None else Some((KeyOf(h, curr), key))
    case _ => None
  }

  /** In every run, the comparator is only ever given keys that calls brought. */
  lemma {:induction false} ComparedKeysAreCalled(less: Less, threads: nat, schedule: Schedule, t: nat, ok: Keys)
    requires StrictWeakOrder(less) && t < threads && CallsOk(schedule, ok)
    ensures var s := Run(less, threads, schedule);
      && Running(s, t)
      && (Compared(s.h, s.pcs[t]).Some? ==> var c := Compared(s.h, s.pcs[t]).value; ok(c.0) && ok(c.1))
  {
    RunKeeps(less, threads, schedule);
    RunFixes(less, threads, schedule);
    RunKeys(less, threads, schedule, ok);
    var s := Run(less, threads, schedule);
    assert ThreadInv(s, t) && PcKeyOk(s.pcs[t], ok);
    match s.pcs[t]
    case Walk(key, goal, level, pred, ctx) => WalkLoads(s.h, key, goal, level, pred);
    case _ =>
  }
}
