/**
  How the levels of the list agree.  On every level a node comes before every node with a greater key, so
  two levels can differ only in the order of equal keys; and a run in which two inserts of one key race
  shows that there they do differ.
 */
module SkipListOrder {
  import opened Basics
  import opened Lists
  import opened SkipListHeap
  import opened SkipListMachine
  import opened SkipListTheorems

  // ---------- Levels agree on different keys ----------

  /** `m` comes before `n` on the list of `level`, as its pointers give it. */
  ghost predicate ComesBefore(h: Heap, level: int, m: int, n: int) {
    exists i: nat, j: nat :: IsAt(h, level, i, m) && IsAt(h, level, j, n) && i < j
  }

  /** Node `m` is the `i`-th entry of the list of `level`. */
  ghost predicate IsAt(h: Heap, level: int, i: nat, m: int) {
    1 <= i && m != NULL && Chase(h, level, i) == m
  }

  lemma {:induction false} SmallerComesFirst(h: Heap, level: int, i: nat, j: nat)
    requires Inv(h) && 0 <= level < MAX_HEIGHT
    requires IsAt(h, level, i, Chase(h, level, i)) && IsAt(h, level, j, Chase(h, level, j))
    requires h.less(KeyOf(h, Chase(h, level, i)), KeyOf(h, Chase(h, level, j)))
    ensures i < j
  {
    assert RowOk(h, level);
    ChaseIsRow(h, level, i);
    ChaseIsRow(h, level, j);
    assert j < i ==> InOrder(h, h.rows[level], j, i);
    assert OrderLaws(h.less, KeyOf(h, Chase(h, level, i)), KeyOf(h, Chase(h, level, i)), []);
  }

  /** In every run, of two nodes on a level the one with the smaller key comes first. */
  lemma {:induction false} LevelsFollowKeys(less: Less, threads: nat, schedule: Schedule, level: int, i: nat, j: nat)
    requires StrictWeakOrder(less) && 0 <= level < MAX_HEIGHT
    requires var h := Run(less, threads, schedule).h;
      && IsAt(h, level, i, Chase(h, level, i)) && IsAt(h, level, j, Chase(h, level, j))
      && less(KeyOf(h, Chase(h, level, i)), KeyOf(h, Chase(h, level, j)))
    ensures i < j
    ensures var h := Run(less, threads, schedule).h;
      ComesBefore(h, level, Chase(h, level, i), Chase(h, level, j))
  {
    RunKeeps(less, threads, schedule);
    RunFixes(less, threads, schedule);
    SmallerComesFirst(Run(less, threads, schedule).h, level, i, j);
  }

  /** In every run, two levels order two nodes differently only if the comparator finds their keys equal. */
  lemma {:induction false} LevelsDifferOnlyOnEqualKeys(less: Less, threads: nat, schedule: Schedule, l: int, k: int,
                                                       m: int, n: int)
    requires StrictWeakOrder(less) && 0 <= l < MAX_HEIGHT && 0 <= k < MAX_HEIGHT
    requires var h := Run(less, threads, schedule).h; ComesBefore(h, l, m, n) && ComesBefore(h, k, n, m)
    ensures var h := Run(less, threads, schedule).h; !less(KeyOf(h, m), KeyOf(h, n)) && !less(KeyOf(h, n), KeyOf(h, m))
  {
    RunFixes(less, threads, schedule);
    var h := Run(less, threads, schedule).h;
    var i: nat, j: nat :| IsAt(h, l, i, m) && IsAt(h, l, j, n) && i < j;
    var i': nat, j': nat :| IsAt(h, k, i', n) && IsAt(h, k, j', m) && i' < j';
    if less(KeyOf(h, n), KeyOf(h, m)) {
      LevelsFollowKeys(less, threads, schedule, l, j, i);
    }
    if less(KeyOf(h, m), KeyOf(h, n)) {
      LevelsFollowKeys(less, threads, schedule, k, j', i');
    }
  }

  // ---------- One thread's steps ----------

  /** Memory and program counter after one step of a thread; a draw yields height 2. */
  ghost function Next(h: Heap, pc: Pc): (Heap, Pc) {
    var s := StepTick(Alone(h, pc), 0, 2, false);
    (s.h, if |s.pcs| > 0 then s.pcs[0] else Idle)
  }

  ghost function Alone(h: Heap, pc: Pc): State {
    State(h, [pc], [Tally([], 0, 0, 0)], 0, [])
  }

  /** What a step does to memory and to its own thread depends on nothing else. */
  ghost predicate SameEffect(s: State, t: nat, s1: State) {
    Running(s, t) && |s1.pcs| > 0 && s.h == s1.h && s.pcs[t] == s1.pcs[0]
  }

  lemma {:induction false} EndSearchIsLocal(s: State, t: nat, key: Bytes, goal: Goal, ctx: Ctx)
    requires Running(s, t)
    ensures SameEffect(EndSearch(s, t, key, goal, ctx), t, EndSearch(Alone(s.h, s.pcs[t]), 0, key, goal, ctx))
  {
  }

  lemma {:induction false} SearchIsLocal(s: State, t: nat)
    requires Running(s, t) && (s.pcs[t].SkipDown? || s.pcs[t].Walk?)
    ensures SameEffect(StepTick(s, t, 2, false), t, StepTick(Alone(s.h, s.pcs[t]), 0, 2, false))
  {
    match s.pcs[t]
    case SkipDown(key, goal, level) => EndSearchIsLocal(s, t, key, goal, FreshCtx());
    case Walk(key, goal, level, pred, ctx) =>
      EndSearchIsLocal(s, t, key, goal, Record(ctx, level, pred, Load(s.h, pred, level)));
  }

  lemma {:induction false} TickIsLocal(s: State, t: nat)
    requires Running(s, t)
    ensures SameEffect(StepTick(s, t, 2, false), t, StepTick(Alone(s.h, s.pcs[t]), 0, 2, false))
  {
    if s.pcs[t].SkipDown? || s.pcs[t].Walk? {
      SearchIsLocal(s, t);
    } else if s.pcs[t].Cas? || s.pcs[t].Allocate? {
      LinkIsLocal(s, t);
    } else {
      QuietIsLocal(s, t);
    }
  }

  lemma {:induction false} LinkIsLocal(s: State, t: nat)
    requires Running(s, t) && (s.pcs[t].Cas? || s.pcs[t].Allocate?)
    ensures SameEffect(StepTick(s, t, 2, false), t, StepTick(Alone(s.h, s.pcs[t]), 0, 2, false))
  {
  }

  lemma {:induction false} QuietIsLocal(s: State, t: nat)
    requires Running(s, t) && !s.pcs[t].SkipDown? && !s.pcs[t].Walk? && !s.pcs[t].Cas? && !s.pcs[t].Allocate?
    ensures SameEffect(StepTick(s, t, 2, false), t, StepTick(Alone(s.h, s.pcs[t]), 0, 2, false))
  {
  }

  /** The outcome of `k` steps. */
  ghost function Solo(h: Heap, pc: Pc, k: nat): (Heap, Pc) {
    if k == 0 then (h, pc) else
      var r := Solo(h, pc, k - 1);
      Next(r.0, r.1)
  }

  lemma {:induction false} SoloNext(h: Heap, pc: Pc, k: nat, h1: Heap, pc1: Pc)
    requires Solo(h, pc, k) == (h1, pc1)
    ensures Solo(h, pc, k + 1) == Next(h1, pc1)
  {
  }

  /** The state of two threads, as far as it matters. */
  ghost predicate At(less: Less, schedule: Schedule, h: Heap, pc0: Pc, pc1: Pc) {
    var s := Run(less, 2, schedule);
    Running(s, 0) && Running(s, 1) && s.h == h && s.pcs == [pc0, pc1]
  }

  lemma {:induction false} Then(less: Less, schedule: Schedule, t: nat, a: Action) returns (schedule': Schedule)
    ensures schedule' == schedule + [(t, a)] && Run(less, 2, schedule') == Step(Run(less, 2, schedule), t, a)
  {
    schedule' := schedule + [(t, a)];
    RunAppend(less, 2, schedule, t, a);
  }

  lemma {:induction false} TickAt(less: Less, schedule: Schedule, t: nat, h: Heap, pc0: Pc, pc1: Pc)
    returns (schedule': Schedule)
    requires At(less, schedule, h, pc0, pc1) && t < 2
    ensures schedule' == schedule + [(t, Tick(2, false))]
    ensures var r := Next(h, if t == 0 then pc0 else pc1);
      At(less, schedule', r.0, if t == 0 then r.1 else pc0, if t == 1 then r.1 else pc1)
  {
    schedule' := Then(less, schedule, t, Tick(2, false));
    var s := Run(less, 2, schedule);
    TickIsLocal(s, t);
    StepIsStep(s, t, Tick(2, false));
  }

  /** `k` steps of one thread while the other stands still. */
  lemma {:induction false} Ticks(less: Less, schedule: Schedule, t: nat, h: Heap, pc0: Pc, pc1: Pc, k: nat)
    returns (schedule': Schedule)
    requires At(less, schedule, h, pc0, pc1) && t < 2
    ensures |schedule'| == |schedule| + k && schedule <= schedule'
    ensures forall i | |schedule| <= i < |schedule'| :: schedule'[i] == (t, Tick(2, false))
    ensures var r := Solo(h, if t == 0 then pc0 else pc1, k);
      At(less, schedule', r.0, if t == 0 then r.1 else pc0, if t == 1 then r.1 else pc1)
  {
    if k == 0 {
      schedule' := schedule;
    } else {
      var mid := Ticks(less, schedule, t, h, pc0, pc1, k - 1);
      var r := Solo(h, if t == 0 then pc0 else pc1, k - 1);
      schedule' := TickAt(less, mid, t, r.0, if t == 0 then r.1 else pc0, if t == 1 then r.1 else pc1);
    }
  }

  lemma {:induction false} CallAt(less: Less, schedule: Schedule, t: nat, h: Heap, pc0: Pc, pc1: Pc, key: Bytes,
                                  value: Bytes)
    returns (schedule': Schedule)
    requires At(less, schedule, h, pc0, pc1) && t < 2 && (if t == 0 then pc0 else pc1).Idle?
    ensures schedule <= schedule'
    ensures var pc := LoadMax(key, Insert(value));
      At(less, schedule', h, if t == 0 then pc else pc0, if t == 1 then pc else pc1)
  {
    schedule' := Then(less, schedule, t, Call(OpInsert(key, value)));
    StepIsStep(Run(less, 2, schedule), t, Call(OpInsert(key, value)));
  }

  // ---------- Two inserts of one key ----------

  /** A list of nodes with one key and height 2, as far as the run below looks at it: the sentinel's two
      lowest pointers and the two lowest rows. */
  ghost predicate Looks(h: Heap, key: Bytes, count: nat, row0: seq<int>, row1: seq<int>) {
    && |h.nodes| == |h.next| == count && count >= 1 && |h.rows| == MAX_HEIGHT && h.maxLevel == 2
    && h.nodes[0].height == |h.next[0]| == MAX_HEIGHT
    && (forall n | 1 <= n < count :: IsTwin(h, key, n))
    && h.rows[0] == row0 && h.rows[1] == row1
    && h.next[0][0] == After(row0, 0) && h.next[0][1] == After(row1, 0)
  }

  ghost predicate IsTwin(h: Heap, key: Bytes, n: int)
    requires 0 <= n < |h.nodes| == |h.next|
  {
    h.nodes[n].key == key && h.nodes[n].height == |h.next[n]| == 2
  }

  lemma {:induction false} TwinIsNotBefore(h: Heap, key: Bytes, n: int)
    requires StrictWeakOrder(h.less) && 1 <= n < |h.nodes| == |h.next| && IsTwin(h, key, n)
    ensures !SortsBefore(h, n, key)
  {
    assert OrderLaws(h.less, key, key, key);
  }

  lemma {:induction false} AllocLooks(h: Heap, key: Bytes, value: Bytes, count: nat, row0: seq<int>, row1: seq<int>)
    requires Looks(h, key, count, row0, row1)
    ensures Looks(AllocNode(h, Node(key, value, 2)), key, count + 1, row0, row1)
  {
    var h' := AllocNode(h, Node(key, value, 2));
    forall n | 1 <= n < count + 1
      ensures IsTwin(h', key, n)
    {
      assert n < count ==> IsTwin(h, key, n);
    }
  }

  lemma {:induction false} StoreLooks(h: Heap, key: Bytes, count: nat, row0: seq<int>, row1: seq<int>, n: int,
                                      level: nat, v: int)
    requires Looks(h, key, count, row0, row1) && 1 <= n < count && level < 2
    ensures Looks(StoreCell(h, n, level, v), key, count, row0, row1)
  {
    assert IsTwin(h, key, n);
    var h' := StoreCell(h, n, level, v);
    forall q | 1 <= q < count
      ensures IsTwin(h', key, q)
    {
      assert IsTwin(h, key, q);
    }
  }

  /** Linking a node right after the sentinel. */
  lemma {:induction false} LinkLooks(h: Heap, key: Bytes, count: nat, row0: seq<int>, row1: seq<int>, level: nat,
                                     n: int)
    requires Looks(h, key, count, row0, row1) && level < 2 && row0 != [] && row1 != [] && row0[0] == row1[0] == HEAD
    requires 1 <= n < count
    ensures var h' := LinkNode(h, level, HEAD, n);
      if level == 0 then Looks(h', key, count, [HEAD, n] + row0[1..], row1)
      else Looks(h', key, count, row0, [HEAD, n] + row1[1..])
  {
    var row := h.rows[level];
    assert IndexOf(row, HEAD) == 0;
    assert InsertAt(row, 1, n) == [HEAD, n] + row[1..];
    var h' := LinkNode(h, level, HEAD, n);
    assert h' == LinkAfter(h, level, 0, n);
    forall q | 1 <= q < count
      ensures IsTwin(h', key, q)
    {
      assert IsTwin(h, key, q);
    }
  }

  // ---------- The steps the run consists of ----------

  lemma {:induction false} NextLoadMax(h: Heap, key: Bytes, goal: Goal)
    ensures Next(h, LoadMax(key, goal)) == (h, SkipDown(key, goal, h.maxLevel))
  {
  }

  /** A level on which the sentinel points nowhere, not the lowest. */
  lemma {:induction false} NextSkips(h: Heap, key: Bytes, goal: Goal, level: nat)
    requires level >= 2 && Load(h, HEAD, level - 1) == NULL
    ensures Next(h, SkipDown(key, goal, level)) == (h, SkipDown(key, goal, level - 1))
  {
  }

  lemma {:induction false} NextWalks(h: Heap, key: Bytes, goal: Goal, level: nat)
    requires level >= 1 && Load(h, HEAD, level - 1) != NULL
    ensures Next(h, SkipDown(key, goal, level)) == (h, Walk(key, goal, level - 1, HEAD, FreshCtx()))
  {
  }

  /** The walk stops at once, before a node that does not sort before the key, and goes down. */
  lemma {:induction false} NextDown(h: Heap, key: Bytes, goal: Goal, level: nat, ctx: Ctx)
    requires level >= 1 && !SortsBefore(h, Load(h, HEAD, level), key)
    ensures Next(h, Walk(key, goal, level, HEAD, ctx))
         == (h, Walk(key, goal, level - 1, HEAD, Record(ctx, level, HEAD, Load(h, HEAD, level))))
  {
  }

  /** The same on the base level, where the search ends. */
  lemma {:induction false} NextEnds(h: Heap, key: Bytes, goal: Goal, ctx: Ctx)
    requires !SortsBefore(h, Load(h, HEAD, 0), key) && (goal.Insert? || goal.Link?)
    ensures var ctx' := Record(ctx, 0, HEAD, Load(h, HEAD, 0));
      Next(h, Walk(key, goal, 0, HEAD, ctx)) ==
      (h, if goal.Insert? then Draw(key, goal.value, Some(ctx')) else Store(goal.node, goal.level, ctx'))
  {
  }

  lemma {:induction false} NextAllocates(h: Heap, key: Bytes, value: Bytes, ctx: Ctx)
    ensures Next(h, Allocate(key, value, Some(ctx), 2))
         == (AllocNode(h, Node(key, value, 2)), Store(|h.nodes|, 0, ctx))
  {
  }

  lemma {:induction false} NextStores(h: Heap, n: int, level: nat, ctx: Ctx)
    ensures Next(h, Store(n, level, ctx)) ==
      (if Succ(ctx, level) == NULL then h else StoreCell(h, n, level, Succ(ctx, level)), Cas(n, level, ctx))
  {
  }

  lemma {:induction false} NextLinks(h: Heap, key: Bytes, n: int, level: nat, ctx: Ctx)
    requires 1 <= n < |h.nodes| == |h.next| && IsTwin(h, key, n) && level < 2
    requires Pred(ctx, level) == HEAD && Load(h, HEAD, level) == Succ(ctx, level)
    ensures Next(h, Cas(n, level, ctx)) == (LinkNode(h, level, HEAD, n), if level == 0 then Store(n, 1, ctx) else Idle)
  {
  }

  lemma {:induction false} NextLoses(h: Heap, key: Bytes, n: int, level: nat, ctx: Ctx)
    requires 1 <= n < |h.nodes| == |h.next| && IsTwin(h, key, n)
    requires Load(h, Pred(ctx, level), level) != Succ(ctx, level)
    ensures Next(h, Cas(n, level, ctx)) == (h, LoadMax(key, Link(n, level)))
  {
  }

  // ---------- The run ----------

  /** The list with room for height 2, then with the first node, then with it linked at the base. */
  ghost function Raised(less: Less): Heap { EmptyHeap(less).(maxLevel := 2) }

  ghost function First(less: Less, key: Bytes, v: Bytes): Heap { AllocNode(Raised(less), Node(key, v, 2)) }

  ghost function FirstLinked(less: Less, key: Bytes, v: Bytes): Heap { LinkNode(First(less, key, v), 0, HEAD, 1) }

  lemma {:induction false} FirstLooks(less: Less, key: Bytes, v: Bytes)
    ensures Looks(First(less, key, v), key, 2, [HEAD], [HEAD])
    ensures Looks(FirstLinked(less, key, v), key, 2, [HEAD, 1], [HEAD])
    ensures FirstLinked(less, key, v).less == less
  {
    assert Looks(Raised(less), key, 1, [HEAD], [HEAD]);
    AllocLooks(Raised(less), key, v, 1, [HEAD], [HEAD]);
    LinkLooks(First(less, key, v), key, 2, [HEAD], [HEAD], 0, 1);
    assert [HEAD, 1] + [HEAD][1..] == [HEAD, 1];
  }

  /** Thread 0 inserts into the empty list, up to the level above the base. */
  lemma {:induction false} FirstSearches(less: Less, key: Bytes, v: Bytes)
    ensures Solo(EmptyHeap(less), LoadMax(key, Insert(v)), 4) == (Raised(less), Allocate(key, v, Some(FreshCtx()), 2))
  {
    var h, pc, goal := EmptyHeap(less), LoadMax(key, Insert(v)), Insert(v);
    SoloNext(h, pc, 0, h, pc);
    NextLoadMax(h, key, goal);
    SoloNext(h, pc, 1, h, SkipDown(key, goal, 1));
    NextGivesUp(h, key, v);
    SoloNext(h, pc, 2, h, Draw(key, v, Some(FreshCtx())));
    SoloNext(h, pc, 3, h, Raise(key, v, Some(FreshCtx()), 2, 1));
  }

  lemma {:induction false} NextGivesUp(h: Heap, key: Bytes, v: Bytes)
    requires Load(h, HEAD, 0) == NULL
    ensures Next(h, SkipDown(key, Insert(v), 1)) == (h, Draw(key, v, Some(FreshCtx())))
  {
  }

  lemma {:induction false} FirstInserts(less: Less, key: Bytes, v: Bytes)
    ensures Solo(EmptyHeap(less), LoadMax(key, Insert(v)), 7) == (FirstLinked(less, key, v), Store(1, 1, FreshCtx()))
  {
    var h, pc, h2 := EmptyHeap(less), LoadMax(key, Insert(v)), First(less, key, v);
    FirstSearches(less, key, v);
    FirstLooks(less, key, v);
    NextAllocates(Raised(less), key, v, FreshCtx());
    SoloNext(h, pc, 4, Raised(less), Allocate(key, v, Some(FreshCtx()), 2));
    NextStores(h2, 1, 0, FreshCtx());
    SoloNext(h, pc, 5, h2, Store(1, 0, FreshCtx()));
    assert IsTwin(h2, key, 1);
    NextLinks(h2, key, 1, 0, FreshCtx());
    SoloNext(h, pc, 6, h2, Cas(1, 0, FreshCtx()));
  }

  /** What thread 1 finds: the first node, not before the key. */
  ghost function SecondCtx(): Ctx { Record(FreshCtx(), 0, HEAD, 1) }

  lemma {:induction false} SecondSearches(h: Heap, key: Bytes, v: Bytes)
    requires StrictWeakOrder(h.less) && Looks(h, key, 2, [HEAD, 1], [HEAD])
    ensures Solo(h, LoadMax(key, Insert(v)), 5) == (h, Allocate(key, v, Some(SecondCtx()), 2))
  {
    var pc, goal := LoadMax(key, Insert(v)), Insert(v);
    SoloNext(h, pc, 0, h, pc);
    NextLoadMax(h, key, goal);
    SoloNext(h, pc, 1, h, SkipDown(key, goal, 2));
    NextSkips(h, key, goal, 2);
    SoloNext(h, pc, 2, h, SkipDown(key, goal, 1));
    NextWalks(h, key, goal, 1);
    SoloNext(h, pc, 3, h, Walk(key, goal, 0, HEAD, FreshCtx()));
    assert IsTwin(h, key, 1);
    TwinIsNotBefore(h, key, 1);
    NextEnds(h, key, goal, FreshCtx());
    SoloNext(h, pc, 4, h, Draw(key, v, Some(SecondCtx())));
  }

  ghost function Second(h: Heap, key: Bytes, v: Bytes): Heap { StoreCell(AllocNode(h, Node(key, v, 2)), 2, 0, 1) }

  ghost function SecondLinked(h: Heap, key: Bytes, v: Bytes): Heap {
    LinkNode(LinkNode(Second(h, key, v), 0, HEAD, 2), 1, HEAD, 2)
  }

  lemma {:induction false} SecondLooks(h: Heap, key: Bytes, v: Bytes)
    requires Looks(h, key, 2, [HEAD, 1], [HEAD])
    ensures Looks(Second(h, key, v), key, 3, [HEAD, 1], [HEAD])
    ensures Looks(LinkNode(Second(h, key, v), 0, HEAD, 2), key, 3, [HEAD, 2, 1], [HEAD])
    ensures Looks(SecondLinked(h, key, v), key, 3, [HEAD, 2, 1], [HEAD, 2])
    ensures SecondLinked(h, key, v).less == h.less
  {
    AllocLooks(h, key, v, 2, [HEAD, 1], [HEAD]);
    StoreLooks(AllocNode(h, Node(key, v, 2)), key, 3, [HEAD, 1], [HEAD], 2, 0, 1);
    LinkLooks(Second(h, key, v), key, 3, [HEAD, 1], [HEAD], 0, 2);
    assert [HEAD, 2] + [HEAD, 1][1..] == [HEAD, 2, 1];
    LinkLooks(LinkNode(Second(h, key, v), 0, HEAD, 2), key, 3, [HEAD, 2, 1], [HEAD], 1, 2);
    assert [HEAD, 2] + [HEAD][1..] == [HEAD, 2];
  }

  /** Thread 1 links its node in front of the first, at both levels. */
  lemma {:induction false} SecondInserts(h: Heap, key: Bytes, v: Bytes)
    requires StrictWeakOrder(h.less) && Looks(h, key, 2, [HEAD, 1], [HEAD])
    ensures Solo(h, LoadMax(key, Insert(v)), 10) == (SecondLinked(h, key, v), Idle)
  {
    var pc, ctx := LoadMax(key, Insert(v)), SecondCtx();
    var h1, h2 := AllocNode(h, Node(key, v, 2)), Second(h, key, v);
    var h3 := LinkNode(h2, 0, HEAD, 2);
    SecondSearches(h, key, v);
    SecondLooks(h, key, v);
    NextAllocates(h, key, v, ctx);
    SoloNext(h, pc, 5, h, Allocate(key, v, Some(ctx), 2));
    NextStores(h1, 2, 0, ctx);
    SoloNext(h, pc, 6, h1, Store(2, 0, ctx));
    assert IsTwin(h2, key, 2) && IsTwin(h3, key, 2);
    NextLinks(h2, key, 2, 0, ctx);
    SoloNext(h, pc, 7, h2, Cas(2, 0, ctx));
    NextStores(h3, 2, 1, ctx);
    SoloNext(h, pc, 8, h3, Store(2, 1, ctx));
    NextLinks(h3, key, 2, 1, ctx);
    SoloNext(h, pc, 9, h3, Cas(2, 1, ctx));
  }

  /** Thread 0 has lost the level above the base and searches again. */
  ghost function RetryCtx(): Ctx { Record(Record(FreshCtx(), 1, HEAD, 2), 0, HEAD, 2) }

  lemma {:induction false} RetrySearches(h: Heap, key: Bytes)
    requires StrictWeakOrder(h.less) && Looks(h, key, 3, [HEAD, 2, 1], [HEAD, 2])
    ensures Solo(h, Cas(1, 1, FreshCtx()), 5) == (h, Store(1, 1, RetryCtx()))
  {
    var pc, goal := Cas(1, 1, FreshCtx()), Link(1, 1);
    assert IsTwin(h, key, 1) && IsTwin(h, key, 2);
    TwinIsNotBefore(h, key, 2);
    SoloNext(h, pc, 0, h, pc);
    NextLoses(h, key, 1, 1, FreshCtx());
    SoloNext(h, pc, 1, h, LoadMax(key, goal));
    NextLoadMax(h, key, goal);
    SoloNext(h, pc, 2, h, SkipDown(key, goal, 2));
    NextWalks(h, key, goal, 2);
    SoloNext(h, pc, 3, h, Walk(key, goal, 1, HEAD, FreshCtx()));
    NextDown(h, key, goal, 1, FreshCtx());
    SoloNext(h, pc, 4, h, Walk(key, goal, 0, HEAD, Record(FreshCtx(), 1, HEAD, 2)));
    NextEnds(h, key, goal, Record(FreshCtx(), 1, HEAD, 2));
  }

  ghost function RetryLinked(h: Heap): Heap { LinkNode(StoreCell(h, 1, 1, 2), 1, HEAD, 1) }

  /** It then links its node in front of the second one on that level. */
  lemma {:induction false} RetryLinks(h: Heap, key: Bytes)
    requires StrictWeakOrder(h.less) && Looks(h, key, 3, [HEAD, 2, 1], [HEAD, 2])
    ensures Solo(h, Cas(1, 1, FreshCtx()), 7) == (RetryLinked(h), Idle)
    ensures Looks(RetryLinked(h), key, 3, [HEAD, 2, 1], [HEAD, 1, 2])
  {
    var pc, h1 := Cas(1, 1, FreshCtx()), StoreCell(h, 1, 1, 2);
    RetrySearches(h, key);
    NextStores(h, 1, 1, RetryCtx());
    SoloNext(h, pc, 5, h, Store(1, 1, RetryCtx()));
    StoreLooks(h, key, 3, [HEAD, 2, 1], [HEAD, 2], 1, 1, 2);
    assert IsTwin(h1, key, 1);
    NextLinks(h1, key, 1, 1, RetryCtx());
    SoloNext(h, pc, 6, h1, Cas(1, 1, RetryCtx()));
    LinkLooks(h1, key, 3, [HEAD, 2, 1], [HEAD, 2], 1, 1);
    assert [HEAD, 1] + [HEAD, 2][1..] == [HEAD, 1, 2];
  }

  /** Up to the moment at which thread 0 is about to lose its compare-exchange above the base. */
  lemma {:induction false} RaceBegins(less: Less, key: Bytes, v0: Bytes, v1: Bytes)
    returns (schedule: Schedule, h: Heap)
    requires StrictWeakOrder(less)
    ensures h.less == less && Looks(h, key, 3, [HEAD, 2, 1], [HEAD, 2])
    ensures At(less, schedule, h, Cas(1, 1, FreshCtx()), Idle)
  {
    var h3 := FirstLinked(less, key, v0);
    FirstInserts(less, key, v0);
    FirstLooks(less, key, v0);
    schedule := CallAt(less, [], 0, EmptyHeap(less), Idle, Idle, key, v0);
    schedule := Ticks(less, schedule, 0, EmptyHeap(less), LoadMax(key, Insert(v0)), Idle, 7);
    h := SecondLinked(h3, key, v1);
    SecondInserts(h3, key, v1);
    SecondLooks(h3, key, v1);
    schedule := CallAt(less, schedule, 1, h3, Store(1, 1, FreshCtx()), Idle, key, v1);
    schedule := Ticks(less, schedule, 1, h3, Store(1, 1, FreshCtx()), LoadMax(key, Insert(v1)), 10);
    NextStores(h, 1, 1, FreshCtx());
    schedule := TickAt(less, schedule, 0, h, Store(1, 1, FreshCtx()), Idle);
  }

  /** Two inserts of one key, whatever the comparator: a thread loses a compare-exchange, and in the end the
      base level and the one above it order the two nodes differently. */
  lemma {:induction false} EqualKeysMayDiffer(less: Less, key: Bytes, v0: Bytes, v1: Bytes)
    returns (schedule: Schedule, lost: nat)
    requires StrictWeakOrder(less)
    ensures lost < |schedule| && FailsAt(less, 2, schedule, 0, lost)
    ensures var h := Run(less, 2, schedule).h;
      && KeyOf(h, 1) == KeyOf(h, 2) == key && ComesBefore(h, 0, 2, 1) && ComesBefore(h, 1, 1, 2)
  {
    var begun, h := RaceBegins(less, key, v0, v1);
    lost := |begun|;
    RetryLinks(h, key);
    schedule := Ticks(less, begun, 0, h, Cas(1, 1, FreshCtx()), Idle, 7);
    LosesNow(less, begun, h, key, schedule);
    RunKeeps(less, 2, schedule);
    OrdersDiffer(RetryLinked(h), key);
  }

  lemma {:induction false} LosesNow(less: Less, begun: Schedule, h: Heap, key: Bytes, schedule: Schedule)
    requires At(less, begun, h, Cas(1, 1, FreshCtx()), Idle) && Looks(h, key, 3, [HEAD, 2, 1], [HEAD, 2])
    requires begun <= schedule && |begun| < |schedule| && schedule[|begun|] == (0, Tick(2, false))
    ensures FailsAt(less, 2, schedule, 0, |begun|)
  {
    assert schedule[..|begun|] == begun;
    assert Load(h, HEAD, 1) == 2;
  }

  lemma {:induction false} OrdersDiffer(h: Heap, key: Bytes)
    requires Inv(h) && Looks(h, key, 3, [HEAD, 2, 1], [HEAD, 1, 2])
    ensures KeyOf(h, 1) == KeyOf(h, 2) == key && ComesBefore(h, 0, 2, 1) && ComesBefore(h, 1, 1, 2)
  {
    assert IsTwin(h, key, 1) && IsTwin(h, key, 2);
    ChaseIsRow(h, 0, 1);
    ChaseIsRow(h, 0, 2);
    ChaseIsRow(h, 1, 1);
    ChaseIsRow(h, 1, 2);
    assert IsAt(h, 0, 1, 2) && IsAt(h, 0, 2, 1) && IsAt(h, 1, 1, 1) && IsAt(h, 1, 2, 2);
  }
}
