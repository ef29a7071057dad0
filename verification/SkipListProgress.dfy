/**
  Searches and iterators end.  While nothing is linked, every step of a search goes right or down, and
  every step of an iterator goes right; a measure of what is left to visit bounds how many such steps a
  thread can take, whatever the others do meanwhile.
 */
module SkipListProgress {
  import opened Lists
  import opened SkipListHeap
  import opened SkipListMachine
  import opened SkipListInvariant
  import opened SkipListTheorems

  /** In a search, or with an iterator that has not ended. */
  ghost predicate Traversing(pc: Pc) {
    pc.LoadMax? || pc.SkipDown? || pc.Walk? || (pc.Cursor? && pc.current != NULL)
  }

  /** The nodes of the lowest `level` rows, and one step down for each. */
  ghost function RowsBelow(rows: seq<seq<int>>, level: nat): nat {
    if level == 0 then 0
    else RowsBelow(rows, level - 1) + (if level <= |rows| then |rows[level - 1]| else 0) + 1
  }

  /** What is left of a row after `n`. */
  ghost function Rest(row: seq<int>, n: int): nat {
    if n in row then |row| - IndexOf(row, n) else 0
  }

  ghost function RowAt(rows: seq<seq<int>>, level: nat): seq<int> {
    if level < |rows| then rows[level] else []
  }

  /** How many more steps the traversal can take. */
  ghost function Measure(rows: seq<seq<int>>, pc: Pc): nat {
    match pc
    case LoadMax(_, _) => RowsBelow(rows, MAX_HEIGHT) + 1
    case SkipDown(_, _, level) => RowsBelow(rows, level)
    case Walk(_, _, level, pred, _) => RowsBelow(rows, level) + Rest(RowAt(rows, level), pred)
    case Cursor(_, current, _, _) => if current == NULL then 0 else Rest(RowAt(rows, 0), current)
    case _ => 0
  }

  lemma {:induction false} RowsBelowGrows(rows: seq<seq<int>>, k: nat, l: nat)
    requires k <= l
    ensures RowsBelow(rows, k) <= RowsBelow(rows, l)
  {
    if k < l {
      RowsBelowGrows(rows, k, l - 1);
    }
  }

  /** The follower of a node on a row has less left. */
  lemma {:induction false} FollowerHasLess(h: Heap, level: nat, n: int)
    requires Inv(h) && level < MAX_HEIGHT && n in h.rows[level]
    ensures var next := Load(h, n, level);
      next != NULL ==> next in h.rows[level] && Rest(h.rows[level], next) < Rest(h.rows[level], n)
  {
    var row := h.rows[level];
    assert RowOk(h, level);
    var p := IndexOf(row, n);
    assert PointsOn(h, level, row, p);
    if p + 1 < |row| {
      assert Apart(row, p + 1, IndexOf(row, row[p + 1]));
    }
  }

  /** A step of a walk goes right, goes down, or ends the search. */
  lemma {:induction false} WalkAdvances(s: State, t: nat, height: nat, spurious: bool)
    requires Inv(s.h) && Running(s, t) && s.pcs[t].Walk? && PcInv(s.h, s.pcs[t])
    ensures var pc' := StepTick(s, t, height, spurious).pcs[t];
      Traversing(pc') && !pc'.Cursor? ==> Measure(s.h.rows, pc') < Measure(s.h.rows, s.pcs[t])
  {
    var level, pred := s.pcs[t].level, s.pcs[t].pred;
    FollowerHasLess(s.h, level, pred);
    if level > 0 {
      assert Rest(RowAt(s.h.rows, level - 1), pred) <= |s.h.rows[level - 1]|;
    }
  }

  lemma {:induction false} SkipDownAdvances(s: State, t: nat, height: nat, spurious: bool)
    requires Inv(s.h) && Running(s, t) && s.pcs[t].SkipDown? && PcInv(s.h, s.pcs[t])
    ensures var pc' := StepTick(s, t, height, spurious).pcs[t];
      Traversing(pc') && !pc'.Cursor? ==> Measure(s.h.rows, pc') < Measure(s.h.rows, s.pcs[t])
  {
    var level := s.pcs[t].level;
    assert Rest(RowAt(s.h.rows, level - 1), HEAD) <= |s.h.rows[level - 1]|;
  }

  lemma {:induction false} LoadMaxAdvances(s: State, t: nat, height: nat, spurious: bool)
    requires Inv(s.h) && Running(s, t) && s.pcs[t].LoadMax?
    ensures var pc' := StepTick(s, t, height, spurious).pcs[t]; Measure(s.h.rows, pc') < Measure(s.h.rows, s.pcs[t])
  {
    RowsBelowGrows(s.h.rows, s.h.maxLevel, MAX_HEIGHT);
  }

  lemma {:induction false} IteratorAdvances(s: State, t: nat, height: nat, spurious: bool)
    requires Inv(s.h) && Running(s, t) && s.pcs[t].Cursor? && s.pcs[t].current != NULL && PcInv(s.h, s.pcs[t])
    ensures var pc' := StepTick(s, t, height, spurious).pcs[t];
      pc'.Cursor? && Measure(s.h.rows, pc') < Measure(s.h.rows, s.pcs[t])
  {
    var pc := s.pcs[t];
    assert Yielded(s.h, pc.from, pc.visited[|pc.visited| - 1]);
    FollowerHasLess(s.h, 0, pc.current);
  }

  /** One traversal: a search stays a search, an iterator an iterator. */
  ghost predicate GoesOn(pc: Pc, pc': Pc) {
    Traversing(pc) && Traversing(pc') && (pc.Cursor? <==> pc'.Cursor?)
  }

  /** A thread's own step makes its traversal shorter, or ends it. */
  lemma {:induction false} OwnStepAdvances(s: State, t: nat, height: nat, spurious: bool)
    requires StateInv(s) && Running(s, t) && Running(StepTick(s, t, height, spurious), t)
    requires GoesOn(s.pcs[t], StepTick(s, t, height, spurious).pcs[t])
    ensures Measure(s.h.rows, StepTick(s, t, height, spurious).pcs[t]) < Measure(s.h.rows, s.pcs[t])
  {
    assert ThreadInv(s, t);
    match s.pcs[t]
    case LoadMax(_, _) => LoadMaxAdvances(s, t, height, spurious);
    case SkipDown(_, _, _) => SkipDownAdvances(s, t, height, spurious);
    case Walk(_, _, _, _, _) => WalkAdvances(s, t, height, spurious);
    case Cursor(_, _, _, _) => IteratorAdvances(s, t, height, spurious);
  }

  ghost predicate IsTickOf(step: (nat, Action), t: nat) { step.0 == t && step.1.Tick? }

  /** A step of any thread that links nothing lengthens no traversal, and the thread's own shortens it. */
  lemma {:induction false} StepAdvances(s: State, u: nat, a: Action, t: nat)
    requires StateInv(s) && Running(s, t) && Running(Step(s, u, a), t) && Step(s, u, a).links == s.links
    requires GoesOn(s.pcs[t], Step(s, u, a).pcs[t])
    ensures var s' := Step(s, u, a);
      Measure(s'.h.rows, s'.pcs[t]) + (if IsTickOf((u, a), t) then 1 else 0) <= Measure(s.h.rows, s.pcs[t])
  {
    if Running(s, u) {
      StepIsStep(s, u, a);
    }
    if IsTickOf((u, a), t) {
      OwnStepAdvances(s, t, a.height, a.spurious);
    } else {
      OtherActionKeepsPc(s, u, a, t);
    }
  }

  lemma {:induction false} OtherActionKeepsPc(s: State, u: nat, a: Action, t: nat)
    requires Running(s, t) && !IsTickOf((u, a), t) && Running(Step(s, u, a), t)
    requires GoesOn(s.pcs[t], Step(s, u, a).pcs[t])
    ensures Step(s, u, a).pcs[t] == s.pcs[t]
  {
    if u != t {
      StepMovesOneThread(s, u, a, t);
    }
  }

  /** The steps of thread `t` among `steps`. */
  ghost function TicksOf(steps: Schedule, t: nat): nat {
    if steps == [] then 0
    else TicksOf(steps[..|steps| - 1], t) + (if IsTickOf(steps[|steps| - 1], t) then 1 else 0)
  }

  /** Throughout the steps thread `t` is in one traversal and nothing is linked. */
  ghost predicate Undisturbed(less: Less, threads: nat, schedule: Schedule, steps: Schedule, t: nat) {
    forall k | 0 <= k <= |steps| :: StillAt(less, threads, schedule, schedule + steps[..k], t)
  }

  ghost predicate StillAt(less: Less, threads: nat, schedule: Schedule, later: Schedule, t: nat) {
    var s, s' := Run(less, threads, schedule), Run(less, threads, later);
    Running(s, t) && Running(s', t) && GoesOn(s.pcs[t], s'.pcs[t]) && s'.links == s.links
  }

  lemma {:induction false} UndisturbedBefore(less: Less, threads: nat, schedule: Schedule, steps: Schedule, t: nat)
    requires steps != [] && Undisturbed(less, threads, schedule, steps, t)
    ensures Undisturbed(less, threads, schedule, steps[..|steps| - 1], t)
  {
    var before := steps[..|steps| - 1];
    forall k | 0 <= k <= |before|
      ensures StillAt(less, threads, schedule, schedule + before[..k], t)
    {
      assert before[..k] == steps[..k];
      assert StillAt(less, threads, schedule, schedule + steps[..k], t);
    }
  }

  lemma {:induction false} RunSnoc(less: Less, threads: nat, schedule: Schedule, steps: Schedule)
    requires steps != []
    ensures var last := steps[|steps| - 1];
      Run(less, threads, schedule + steps) == Step(Run(less, threads, schedule + steps[..|steps| - 1]), last.0, last.1)
  {
    var before, last := steps[..|steps| - 1], steps[|steps| - 1];
    assert schedule + steps == (schedule + before) + [(last.0, last.1)];
    RunAppend(less, threads, schedule + before, last.0, last.1);
  }

  /** In every run, while no thread links anything, a search or an iterator takes no more of its own steps
      than its measure: the nodes left on its level and on the levels below, and one step down for each. */
  lemma {:induction false} TraversalsEnd(less: Less, threads: nat, schedule: Schedule, steps: Schedule, t: nat)
    requires StrictWeakOrder(less) && Undisturbed(less, threads, schedule, steps, t)
    ensures Running(Run(less, threads, schedule), t) && Running(Run(less, threads, schedule + steps), t)
    ensures var s, s' := Run(less, threads, schedule), Run(less, threads, schedule + steps);
      TicksOf(steps, t) + Measure(s'.h.rows, s'.pcs[t]) <= Measure(s.h.rows, s.pcs[t])
  {
    assert steps[..|steps|] == steps;
    assert StillAt(less, threads, schedule, schedule + steps[..|steps|], t);
    if steps == [] {
      assert schedule + steps == schedule;
    } else {
      var before, last := steps[..|steps| - 1], steps[|steps| - 1];
      UndisturbedBefore(less, threads, schedule, steps, t);
      TraversalsEnd(less, threads, schedule, before, t);
      LastStepAdvances(less, threads, schedule, steps, t);
    }
  }

  lemma {:induction false} LastStepAdvances(less: Less, threads: nat, schedule: Schedule, steps: Schedule, t: nat)
    requires StrictWeakOrder(less) && steps != [] && Undisturbed(less, threads, schedule, steps, t)
    ensures var s, s' := Run(less, threads, schedule + steps[..|steps| - 1]), Run(less, threads, schedule + steps);
      && Running(s, t) && Running(s', t)
      && Measure(s'.h.rows, s'.pcs[t]) + (if IsTickOf(steps[|steps| - 1], t) then 1
          else 0) <= Measure(s.h.rows, s.pcs[t])
  {
    var n, last := |steps| - 1, steps[|steps| - 1];
    assert steps[..n + 1] == steps;
    assert StillAt(less, threads, schedule, schedule + steps[..n], t);
    assert StillAt(less, threads, schedule, schedule + steps[..n + 1], t);
    RunKeeps(less, threads, schedule + steps[..n]);
    RunSnoc(less, threads, schedule, steps);
    StepAdvances(Run(less, threads, schedule + steps[..n]), last.0, last.1, t);
  }
}
