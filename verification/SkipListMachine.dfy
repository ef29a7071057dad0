/**
  The concurrent skip list as a step system.  Any number of threads run lookups, seeks, iterators,
  `insert` and `insert_with`; every atomic load, store or compare-exchange is one step and steps of
  different threads interleave arbitrarily (sequential consistency).

  `log`, `links` and `tallies` are history variables: no step reads them to decide what to do.
 */
module SkipListMachine {
  import opened Basics
  import opened Lists
  import opened SkipListHeap

  // ---------- Thread-local state ----------

  /** `TraversalCtx`; `searched_node` is left out because `search` never sets it. */
  datatype Ctx = Ctx(preds: seq<int>, succs: seq<int>)

  ghost function FreshCtx(): Ctx {
    Ctx(seq(MAX_HEIGHT, _ => HEAD), seq(MAX_HEIGHT, _ => NULL))
  }

  ghost function Pred(ctx: Ctx, level: int): int {
    if 0 <= level < |ctx.preds| then ctx.preds[level] else NULL
  }

  ghost function Succ(ctx: Ctx, level: int): int {
    if 0 <= level < |ctx.succs| then ctx.succs[level] else NULL
  }

  ghost function Record(ctx: Ctx, level: int, pred: int, succ: int): Ctx {
    if 0 <= level < |ctx.preds| == |ctx.succs|
    then Ctx(ctx.preds[level := pred], ctx.succs[level := succ])
    else ctx
  }

  /** Why a search runs, hence what follows it. */
  datatype Goal = Lookup | Seek | Insert(value: Bytes) | Link(node: int, level: nat)

  datatype Pc =
    | Idle
      // search: about to load max_level
    | LoadMax(key: Bytes, goal: Goal)
      // search: about to load the sentinel's pointer at level - 1
    | SkipDown(key: Bytes, goal: Goal, level: nat)
      // search: about to load pred's pointer at level
    | Walk(key: Bytes, goal: Goal, level: nat, pred: int, ctx: Ctx)
      // generate_random_level: about to draw a height and load max_level
    | Draw(key: Bytes, value: Bytes, found: Option<Ctx>)
      // generate_random_level: about to compare-exchange max_level
    | Raise(key: Bytes, value: Bytes, found: Option<Ctx>, height: nat, seen: nat)
      // about to allocate the node and write its key and value
    | Allocate(key: Bytes, value: Bytes, found: Option<Ctx>, height: nat)
      // about to store the successor in the new node's own tower
    | Store(node: int, level: nat, ctx: Ctx)
      // about to compare-exchange the predecessor's pointer
    | Cas(node: int, level: nat, ctx: Ctx)
      // an iterator; `visited` and `must` are history: nodes yielded, nodes present at seek time
    | Cursor(from: Option<Bytes>, current: int, visited: seq<int>, must: set<int>)

  // ---------- System state ----------

  datatype Entry = Entry(key: Bytes, value: Bytes)

  /** What an operation did at its linearization point. */
  datatype Event =
    | Inserted(tid: nat, entry: Entry)
    | LookedUp(tid: nat, key: Bytes, result: Option<Entry>)

  /** What an operation asks for, whichever code path serves it. */
  datatype Job = Add(entry: Entry) | Find(key: Bytes)

  /** Per thread: the jobs it called, in order; its successful links; its failed link attempts; and
      the number of links by other threads when its latest search began. */
  datatype Tally = Tally(calls: seq<Job>, own: nat, fails: nat, mark: int)

  datatype State = State(h: Heap, pcs: seq<Pc>, tallies: seq<Tally>, links: nat, log: seq<Event>)

  ghost function InitState(less: Less, threads: nat): State {
    State(EmptyHeap(less), seq(threads, _ => Idle), seq(threads, _ => Tally([], 0, 0, 0)), 0, [])
  }

  // ---------- Steps ----------

  datatype Op =
    | OpLookup(key: Bytes)
    | OpSeek(key: Bytes)
    | OpFirst
    | OpInsert(key: Bytes, value: Bytes)
    | OpInsertWith(key: Bytes, value: Bytes)

  /** `Tick` runs the thread's next step; `height` is what a draw yields and `spurious` lets a weak
      compare-exchange fail.  `Close` drops an iterator. */
  datatype Action = Call(op: Op) | Tick(height: nat, spurious: bool) | Close

  ghost predicate Running(s: State, t: nat) {
    t < |s.pcs| == |s.tallies|
  }

  ghost function Goto(s: State, t: nat, pc: Pc): State
    requires Running(s, t)
  {
    s.(pcs := s.pcs[t := pc])
  }

  ghost function Others(s: State, t: nat): int
    requires Running(s, t)
  {
    s.links - s.tallies[t].own
  }

  ghost function BeginSearch(s: State, t: nat, key: Bytes, goal: Goal): State
    requires Running(s, t)
  {
    Goto(s, t, LoadMax(key, goal)).(tallies := s.tallies[t := s.tallies[t].(mark := Others(s, t))])
  }

  ghost function EntryAt(h: Heap, n: int): Option<Entry> {
    if 0 < n < |h.nodes| then Some(Entry(h.nodes[n].key, h.nodes[n].value)) else None
  }

  /** The linked nodes that do not sort before `from` (all of them when there is no bound). */
  ghost function PresentFrom(h: Heap, from: Option<Bytes>): set<int> {
    if |h.rows| == 0 then {} else
      set n | n in h.rows[0] && 0 < n < |h.nodes| && (from.Some? ==> !h.less(h.nodes[n].key, from.value))
  }

  ghost function OpenCursor(h: Heap, from: Option<Bytes>, first: int): Pc {
    Cursor(from, first, if first == NULL then [] else [first], PresentFrom(h, from))
  }

  ghost function EndSearch(s: State, t: nat, key: Bytes, goal: Goal, ctx: Ctx): State
    requires Running(s, t)
  {
    match goal
    case Lookup => Goto(s, t, Idle).(log := s.log + [LookedUp(t, key, EntryAt(s.h, Succ(ctx, 0)))])
    case Seek =>
      Goto(s, t, OpenCursor(s.h, Some(key), Succ(ctx, 0)))
      .(log := s.log + [LookedUp(t, key, EntryAt(s.h, Succ(ctx, 0)))])
    case Insert(value) => Goto(s, t, Draw(key, value, Some(ctx)))
    case Link(node, level) => Goto(s, t, Store(node, level, ctx))
  }

  ghost predicate SortsBefore(h: Heap, n: int, key: Bytes) {
    0 <= n < |h.nodes| && h.less(h.nodes[n].key, key)
  }

  ghost function IndexOf(row: seq<int>, n: int): (p: nat)
    requires n in row
    ensures p < |row| && row[p] == n
  {
    if row[0] == n then 0 else 1 + IndexOf(row[1..], n)
  }

  /** The effect of a successful compare-exchange that makes `pred` point to `node` at `level`. */
  ghost function LinkNode(h: Heap, level: nat, pred: int, node: int): Heap {
    if level < |h.rows| && pred in h.rows[level]
    then LinkAfter(h, level, IndexOf(h.rows[level], pred), node)
    else StoreCell(h, pred, level, node)
  }

  ghost function KeyOf(h: Heap, n: int): Bytes {
    if 0 <= n < |h.nodes| then h.nodes[n].key else []
  }

  ghost function HeightOf(h: Heap, n: int): nat {
    if 0 <= n < |h.nodes| then h.nodes[n].height else 0
  }

  ghost function JobsOfOp(op: Op): seq<Job> {
    match op
    case OpLookup(key) => [Find(key)]
    case OpSeek(key) => [Find(key)]
    case OpFirst => []
    case OpInsert(key, value) => [Add(Entry(key, value))]
    case OpInsertWith(key, value) => [Add(Entry(key, value))]
  }

  ghost function StepCall(s: State, t: nat, op: Op): State
    requires Running(s, t)
  {
    var s1 := s.(tallies := s.tallies[t := s.tallies[t].(calls := s.tallies[t].calls + JobsOfOp(op))]);
    match op
    case OpLookup(key) => BeginSearch(s1, t, key, Lookup)
    case OpSeek(key) => BeginSearch(s1, t, key, Seek)
    case OpFirst => Goto(s, t, OpenCursor(s.h, None, Load(s.h, HEAD, 0)))
    case OpInsert(key, value) => BeginSearch(s1, t, key, Insert(value))
    case OpInsertWith(key, value) => Goto(s1, t, Draw(key, value, None))
  }

  ghost function StepSkipDown(s: State, t: nat, key: Bytes, goal: Goal, level: nat): State
    requires Running(s, t)
  {
    if level == 0 then EndSearch(s, t, key, goal, FreshCtx())
    else if Load(s.h, HEAD, level - 1) != NULL then Goto(s, t, Walk(key, goal, level - 1, HEAD, FreshCtx()))
    else if level == 1 then EndSearch(s, t, key, goal, FreshCtx())
    else Goto(s, t, SkipDown(key, goal, level - 1))
  }

  ghost function StepWalk(s: State, t: nat, key: Bytes, goal: Goal, level: nat, pred: int, ctx: Ctx): State
    requires Running(s, t)
  {
    var curr := Load(s.h, pred, level);
    if curr != NULL && SortsBefore(s.h, curr, key) then Goto(s, t, Walk(key, goal, level, curr, ctx))
    else
      var ctx' := Record(ctx, level, pred, curr);
      if level == 0 then EndSearch(s, t, key, goal, ctx')
      else Goto(s, t, Walk(key, goal, level - 1, pred, ctx'))
  }

  /** After `max_level` was seen to be `seen`: allocate, or try to raise it. */
  ghost function RaiseOrAllocate(key: Bytes, value: Bytes, found: Option<Ctx>, height: nat, seen: nat): Pc {
    if height <= seen then Allocate(key, value, found, height) else Raise(key, value, found, height, seen)
  }

  ghost function StepRaise(s: State, t: nat, key: Bytes, value: Bytes, found: Option<Ctx>, height: nat, seen: nat,
                           spurious: bool): State
    requires Running(s, t)
  {
    if s.h.maxLevel == seen && !spurious
    then Goto(s, t, Allocate(key, value, found, height)).(h := s.h.(maxLevel := height))
    else Goto(s, t, RaiseOrAllocate(key, value, found, height, s.h.maxLevel))
  }

  /** `insert` has searched already; `insert_with` searches only now. */
  ghost function StepAllocate(s: State, t: nat, key: Bytes, value: Bytes, found: Option<Ctx>, height: nat): State
    requires Running(s, t)
  {
    var node := |s.h.nodes|;
    var s1 := s.(h := AllocNode(s.h, Node(key, value, height)));
    match found
    case Some(ctx) => Goto(s1, t, Store(node, 0, ctx))
    case None => BeginSearch(s1, t, key, Link(node, 0))
  }

  ghost function StepStore(s: State, t: nat, node: int, level: nat, ctx: Ctx): State
    requires Running(s, t)
  {
    var h' := if Succ(ctx, level) == NULL then s.h else StoreCell(s.h, node, level, Succ(ctx, level));
    Goto(s, t, Cas(node, level, ctx)).(h := h')
  }

  ghost function StepCas(s: State, t: nat, node: int, level: nat, ctx: Ctx): State
    requires Running(s, t)
  {
    var tally := s.tallies[t];
    if Load(s.h, Pred(ctx, level), level) == Succ(ctx, level) then
      State(
        LinkNode(s.h, level, Pred(ctx, level), node),
        s.pcs[t := if level + 1 < HeightOf(s.h, node) then Store(node, level + 1, ctx) else Idle],
        s.tallies[t := tally.(own := tally.own + 1)],
        s.links + 1,
        if level == 0 && EntryAt(s.h, node).Some? then s.log + [Inserted(t, EntryAt(s.h, node).value)] else s.log)
    else
      BeginSearch(s.(tallies := s.tallies[t := tally.(fails := tally.fails + 1)]), t, KeyOf(s.h, node), Link(node,
          level))
  }

  ghost function StepCursor(s: State, t: nat, from: Option<Bytes>, current: int, visited: seq<int>,
                            must: set<int>): State
    requires Running(s, t)
  {
    if current == NULL then s
    else
      var n := Load(s.h, current, 0);
      Goto(s, t, Cursor(from, n, if n == NULL then visited else visited + [n], must))
  }

  ghost function StepTick(s: State, t: nat, height: nat, spurious: bool): State
    requires Running(s, t)
  {
    match s.pcs[t]
    case Idle => s
    case LoadMax(key, goal) => Goto(s, t, SkipDown(key, goal, s.h.maxLevel))
    case SkipDown(key, goal, level) => StepSkipDown(s, t, key, goal, level)
    case Walk(key, goal, level, pred, ctx) => StepWalk(s, t, key, goal, level, pred, ctx)
    case Draw(key, value, found) =>
      if 1 <= height <= MAX_HEIGHT then Goto(s, t, RaiseOrAllocate(key, value, found, height, s.h.maxLevel)) else s
    case Raise(key, value, found, h, seen) => StepRaise(s, t, key, value, found, h, seen, spurious)
    case Allocate(key, value, found, h) => StepAllocate(s, t, key, value, found, h)
    case Store(node, level, ctx) => StepStore(s, t, node, level, ctx)
    case Cas(node, level, ctx) => StepCas(s, t, node, level, ctx)
    case Cursor(from, current, visited, must) => StepCursor(s, t, from, current, visited, must)
  }

  /** One step of thread `t`; an action that does not apply leaves the state alone. */
  ghost function Step(s: State, t: nat, a: Action): State {
    if !Running(s, t) then s else
    match a
    case Call(op) => if s.pcs[t].Idle? then StepCall(s, t, op) else s
    case Tick(height, spurious) => StepTick(s, t, height, spurious)
    case Close => if s.pcs[t].Cursor? then Goto(s, t, Idle) else s
  }

  // ---------- Runs ----------

  type Schedule = seq<(nat, Action)>

  /** The state reached from an empty list by the given schedule. */
  ghost function Run(less: Less, threads: nat, schedule: Schedule): State {
    if schedule == [] then InitState(less, threads)
    else
      var last := schedule[|schedule| - 1];
      Step(Run(less, threads, schedule[..|schedule| - 1]), last.0, last.1)
  }

  /** The tower cell that the thread's next step loads, stores or compare-exchanges. */
  ghost function Touches(h: Heap, pc: Pc): Option<(int, int)> {
    match pc
    case SkipDown(_, _, level) => Some((HEAD, level - 1))
    case Walk(_, _, level, pred, _) => Some((pred, level))
    case Store(node, level, _) => Some((node, level))
    case Cas(_, level, ctx) => Some((Pred(ctx, level), level))
    case Cursor(_, current, _, _) => if current == NULL then None else Some((current, 0))
    case _ => None
  }
}
