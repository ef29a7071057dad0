/**
  What the concurrent arena answers to each call, told from the schedule: an allocation returns one range of
  the size and alignment its call asked for, it reports a full arena only when nothing could serve it, and a
  thread left alone gets its answer.
 */
module ArenaCalls {
  import opened Basics
  import opened ArenaLayout
  import opened ArenaMachine
  import opened ArenaTheorems
  import opened ArenaFit

  type Schedule = seq<(nat, Action)>

  /** The arena takes a call from a thread that is not in one. */
  ghost predicate Accepts(s: State, t: nat, act: Action) {
    t < |s.pcs| && act.Call? && (s.pcs[t].Idle? || s.pcs[t].Full?) && GoodLayout(act.l)
  }

  /** The layout of the last call taken from thread `t`. */
  ghost function Asked(s0: State, schedule: Schedule, t: nat): Option<Layout> {
    if schedule == [] then None
    else
      var before, last := schedule[..|schedule| - 1], schedule[|schedule| - 1];
      if last.0 == t && Accepts(Exec(s0, before), t, last.1) then Some(last.1.l) else Asked(s0, before, t)
  }

  /** The layouts of the calls that were answered, in the order of the answers. */
  ghost function Answered(s0: State, schedule: Schedule): seq<Layout> {
    if schedule == [] then []
    else
      var before, last := schedule[..|schedule| - 1], schedule[|schedule| - 1];
      var asked := Asked(s0, before, last.0);
      if |Exec(s0, schedule).a.returned| > |Exec(s0, before).a.returned| && asked.Some?
      then Answered(s0, before) + [asked.value]
      else Answered(s0, before)
  }

  ghost function RangeOf(a: Arena, x: Claim): Range {
    if ClaimOk(a, x) then a.chunks[x.c].grants[x.i] else Range(0, 0, 1)
  }

  /** The range has the size and alignment of the layout. */
  ghost predicate Serves(r: Range, l: Layout) { r.size == l.size && r.align == l.align }

  // ---------- Every answer is of the layout asked for ----------

  /** A thread in a call works on the layout of that call. */
  ghost predicate WorksOn(pc: Pc, asked: Option<Layout>) {
    pc.Idle? || asked == Some(pc.l)
  }

  ghost predicate CallsInv(s0: State, schedule: Schedule) {
    var s, answered := Exec(s0, schedule), Answered(s0, schedule);
    && (forall t | 0 <= t < |s.pcs| :: WorksOn(s.pcs[t], Asked(s0, schedule, t)))
    && |answered| == |s.a.returned|
    && (forall j | 0 <= j < |answered| :: AnswerOk(s.a, s.a.returned[j], answered[j]))
  }

  ghost predicate AnswerOk(a: Arena, x: Claim, l: Layout) {
    ClaimOk(a, x) && Serves(RangeOf(a, x), l)
  }

  lemma {:induction false} StepWorks(s: State, t: nat, act: Action, u: nat, asked: Option<Layout>)
    requires u < |s.pcs| && WorksOn(s.pcs[u], asked)
    ensures |Step(s, t, act).pcs| == |s.pcs|
    ensures WorksOn(Step(s, t, act).pcs[u], if t == u && Accepts(s, t, act) then Some(act.l) else asked)
  {
  }

  lemma {:induction false} StepGrows(s: State, t: nat, act: Action)
    requires StateInv(s)
    ensures Grows(s.a, Step(s, t, act).a)
  {
    if t < |s.pcs| {
      assert ThreadOk(s.a, t, s.pcs[t]);
    }
  }

  lemma {:induction false} GrownAnswer(a: Arena, a': Arena, x: Claim, l: Layout)
    requires Grows(a, a') && AnswerOk(a, x, l)
    ensures AnswerOk(a', x, l)
  {
    assert a.chunks[x.c].grants <= a'.chunks[x.c].grants;
  }

  /** A step returns at most one range, and only that of the thread that takes it. */
  lemma {:induction false} StepReturns(s: State, t: nat, act: Action)
    requires StateInv(s)
    ensures var s' := Step(s, t, act);
      if t < |s.pcs| && s.pcs[t].Count? && act.Run?
      then s'.a.returned == s.a.returned + [Claim(s.pcs[t].c, s.pcs[t].i)]
           && AnswerOk(s.a, Claim(s.pcs[t].c, s.pcs[t].i), s.pcs[t].l)
      else s'.a.returned == s.a.returned
  {
    if t < |s.pcs| {
      assert ThreadOk(s.a, t, s.pcs[t]);
    }
  }

  lemma {:induction false} ExecPcs(s0: State, schedule: Schedule)
    ensures |Exec(s0, schedule).pcs| == |s0.pcs|
  {
    if schedule != [] {
      ExecPcs(s0, schedule[..|schedule| - 1]);
    }
  }

  lemma {:induction false} CallsKept(block: nat, cap: nat, threads: nat, schedule: Schedule)
    requires 0 < block < HALF && block <= cap
    ensures CallsInv(InitState(block, cap, threads), schedule)
  {
    if schedule != [] {
      var before, last := schedule[..|schedule| - 1], schedule[|schedule| - 1];
      CallsKept(block, cap, threads, before);
      ExecKeeps(block, cap, threads, before);
      CallsStep(InitState(block, cap, threads), schedule, before, last.0, last.1);
    }
  }

  lemma {:induction false} CallsStep(s0: State, schedule: Schedule, before: Schedule, t: nat, act: Action)
    requires schedule != [] && before == schedule[..|schedule| - 1] && schedule[|schedule| - 1] == (t, act)
    requires StateInv(Exec(s0, before)) && CallsInv(s0, before)
    ensures CallsInv(s0, schedule)
  {
    var s, s' := Exec(s0, before), Exec(s0, schedule);
    StepReturns(s, t, act);
    StepGrows(s, t, act);
    forall u | 0 <= u < |s'.pcs|
      ensures WorksOn(s'.pcs[u], Asked(s0, schedule, u))
    {
      StepWorks(s, t, act, u, Asked(s0, before, u));
    }
    if t < |s.pcs| && s.pcs[t].Count? && act.Run? {
      assert WorksOn(s.pcs[t], Asked(s0, before, t));
    }
    forall j | 0 <= j < |s'.a.returned|
      ensures |Answered(s0, schedule)| == |s'.a.returned|
      ensures AnswerOk(s'.a, s'.a.returned[j], Answered(s0, schedule)[j])
    {
      if j < |s.a.returned| {
        GrownAnswer(s.a, s'.a, s.a.returned[j], Answered(s0, before)[j]);
      } else {
        GrownAnswer(s.a, s'.a, Claim(s.pcs[t].c, s.pcs[t].i), s.pcs[t].l);
      }
    }
  }

  /** In every interleaving, the ranges returned are, one by one, of the layouts of the calls answered. */
  lemma {:induction false} ReturnsServeCalls(block: nat, cap: nat, threads: nat, schedule: Schedule, j: nat)
    requires 0 < block < HALF && block <= cap
    requires j < |Exec(InitState(block, cap, threads), schedule).a.returned|
    ensures var s0 := InitState(block, cap, threads);
      var a := Exec(s0, schedule).a;
      && |Answered(s0, schedule)| == |a.returned|
      && ClaimOk(a, a.returned[j]) && Serves(RangeOf(a, a.returned[j]), Answered(s0, schedule)[j])
  {
    CallsKept(block, cap, threads, schedule);
    var s0 := InitState(block, cap, threads);
    assert AnswerOk(Exec(s0, schedule).a, Exec(s0, schedule).a.returned[j], Answered(s0, schedule)[j]);
  }

  // ---------- One answer to one call ----------

  /** What the steps of thread `t` from position `i` on returned. */
  ghost function ReturnedTo(s0: State, schedule: Schedule, t: nat, i: nat): seq<Claim> {
    if |schedule| <= i then []
    else
      var before, last := schedule[..|schedule| - 1], schedule[|schedule| - 1];
      var old', new' := Exec(s0, before).a.returned, Exec(s0, schedule).a.returned;
      ReturnedTo(s0, before, t, i) + (if last.0 == t && |old'| <= |new'| then new'[|old'|..] else [])
  }

  /** Thread `t` has called with layout `l` in step `i` and not since. */
  ghost predicate CalledAt(s0: State, schedule: Schedule, t: nat, i: nat, l: Layout) {
    && i < |schedule| && schedule[i] == (t, Call(l)) && Accepts(Exec(s0, schedule[..i]), t, Call(l))
    && forall k | i < k < |schedule| && schedule[k].0 == t :: schedule[k].1.Run?
  }

  /** Where the call stands: nothing returned so far, or one range and the thread idle. */
  ghost predicate Standing(a: Arena, pc: Pc, l: Layout, claims: seq<Claim>) {
    if pc.Idle? then |claims| == 1 && claims[0] in a.returned && AnswerOk(a, claims[0], l)
    else claims == [] && pc.l == l
  }

  lemma {:induction false} CallStands(block: nat, cap: nat, threads: nat, schedule: Schedule, t: nat, i: nat, l: Layout)
    requires 0 < block < HALF && block <= cap
    requires CalledAt(InitState(block, cap, threads), schedule, t, i, l)
    ensures var s0 := InitState(block, cap, threads);
      var s := Exec(s0, schedule);
      t < |s.pcs| && Standing(s.a, s.pcs[t], l, ReturnedTo(s0, schedule, t, i))
  {
    var s0 := InitState(block, cap, threads);
    var before, last := schedule[..|schedule| - 1], schedule[|schedule| - 1];
    var s := Exec(s0, before);
    ExecKeeps(block, cap, threads, before);
    StepReturns(s, last.0, last.1);
    StepGrows(s, last.0, last.1);
    if |schedule| == i + 1 {
      assert ReturnedTo(s0, before, t, i) == [];
      assert Exec(s0, schedule).a.returned[|s.a.returned|..] == [];
    } else {
      assert schedule[..i] == before[..i];
      CallStands(block, cap, threads, before, t, i, l);
      StandingStep(s, last.0, last.1, t, l, ReturnedTo(s0, before, t, i));
    }
  }

  lemma {:induction false} StandingStep(s: State, u: nat, act: Action, t: nat, l: Layout, claims: seq<Claim>)
    requires StateInv(s) && t < |s.pcs| && Standing(s.a, s.pcs[t], l, claims) && (u == t ==> act.Run?)
    ensures var s' := Step(s, u, act);
      && |s'.pcs| == |s.pcs| && |s.a.returned| <= |s'.a.returned|
      && Standing(s'.a, s'.pcs[t], l, claims + (if u == t then s'.a.returned[|s.a.returned|..] else []))
  {
    StepReturns(s, u, act);
    StepGrows(s, u, act);
    var s' := Step(s, u, act);
    if s.pcs[t].Idle? {
      GrownAnswer(s.a, s'.a, claims[0], l);
      assert u == t ==> s'.a.returned[|s.a.returned|..] == [];
    } else if u == t && s.pcs[t].Count? {
      var x := Claim(s.pcs[t].c, s.pcs[t].i);
      assert s'.a.returned[|s.a.returned|..] == [x];
      GrownAnswer(s.a, s'.a, x, l);
    } else {
      assert u == t ==> s'.a.returned[|s.a.returned|..] == [];
      assert u == t ==> ThreadOk(s.a, t, s.pcs[t]);
    }
  }

  /** In every interleaving, a call that has been answered was answered by exactly one range, and that range
      has the size and the alignment the call asked for. */
  lemma {:induction false} CallGetsItsRange(block: nat, cap: nat, threads: nat, schedule: Schedule, t: nat, i: nat,
                                            l: Layout)
    requires 0 < block < HALF && block <= cap
    requires var s0 := InitState(block, cap, threads);
      CalledAt(s0, schedule, t, i, l) && t < |Exec(s0, schedule).pcs| && Exec(s0, schedule).pcs[t].Idle?
    ensures var s0 := InitState(block, cap, threads);
      var a, claims := Exec(s0, schedule).a, ReturnedTo(s0, schedule, t, i);
      && |claims| == 1 && claims[0] in a.returned && ClaimOk(a, claims[0])
      && RangeOf(a, claims[0]).size == l.size && RangeOf(a, claims[0]).align == l.align
  {
    CallStands(block, cap, threads, schedule, t, i, l);
  }

  // ---------- When the arena is full ----------

  /** No block can be added under the capacity. */
  ghost predicate Exhausted(a: Arena) { a.allocBytes + a.block > a.cap }

  ghost predicate CurrentFits(a: Arena, l: Layout) {
    a.current < |a.chunks| && Fits(a.chunks[a.current], l)
  }

  /** What a thread in `try_new_chunk`, or one that was refused, knows. */
  ghost predicate Refused(a: Arena, pc: Pc)
    requires a.current < |a.chunks|
  {
    match pc
    case LoadBump2(l, c) => c == a.current
    case CheckLen2(l, bump) => bump <= a.chunks[a.current].bump
    case CheckCap(l) => !CurrentFits(a, l)
    case AddBlock(l) => !CurrentFits(a, l)
    case Unlock(l, ok) => !ok ==> Exhausted(a) && !CurrentFits(a, l)
    case Full(l) => Exhausted(a) && !CurrentFits(a, l)
    case _ => true
  }

  /** The new chunk is on its way. */
  ghost predicate Growing(pc: Pc) { pc.PushChunk? || pc.StoreChunk? }

  ghost predicate NoneGrowing(s: State) {
    forall t | 0 <= t < |s.pcs| :: !Growing(s.pcs[t])
  }

  ghost predicate RefusedInv(s: State) {
    && s.a.current < |s.a.chunks|
    && (forall t | 0 <= t < |s.pcs| :: Refused(s.a, s.pcs[t]))
    && (forall t | 0 <= t < |s.pcs| && s.pcs[t].Full? :: NoneGrowing(s))
  }

  /** A chunk in which less is left fits less. */
  lemma {:induction false} FitsLess(ch: Chunk, ch': Chunk, l: Layout)
    requires ch'.len == ch.len && ch.bump <= ch'.bump && Fits(ch', l)
    ensures Fits(ch, l)
  {
    var y: nat :| FitsAt(ch', l, y);
    assert FitsAt(ch, l, y);
  }

  /** Memory after a step of a thread that installs no chunk. */
  ghost predicate Shrinks(a: Arena, a': Arena) {
    && a.current == a'.current < |a.chunks| <= |a'.chunks| && a.allocBytes <= a'.allocBytes
    && a'.block == a.block && a'.cap == a.cap
    && a'.chunks[a.current].len == a.chunks[a.current].len && a.chunks[a.current].bump <= a'.chunks[a.current].bump
  }

  lemma {:induction false} ShrinksKeeps(a: Arena, a': Arena, pc: Pc)
    requires Shrinks(a, a') && Refused(a, pc)
    ensures Refused(a', pc)
  {
    if (pc.CheckCap? || pc.AddBlock? || pc.Unlock? || pc.Full?) && CurrentFits(a', pc.l) {
      FitsLess(a.chunks[a.current], a'.chunks[a.current], pc.l);
    }
  }

  lemma {:induction false} StepShrinks(s: State, t: nat, act: Action)
    requires StateInv(s) && !(t < |s.pcs| && s.pcs[t].StoreChunk?)
    ensures Shrinks(s.a, Step(s, t, act).a)
  {
    if t < |s.pcs| {
      assert ThreadOk(s.a, t, s.pcs[t]);
      if s.pcs[t].Cas? && s.pcs[t].bump == s.a.chunks[s.pcs[t].c].bump {
        AlignedIsLeast(s.pcs[t].bump, s.pcs[t].l, 0);
      }
    }
  }

  /** The check made under the mutex says whether the current chunk serves, even if its bump has moved on. */
  lemma {:induction false} CheckRefuses(s: State, t: nat)
    requires StateInv(s) && t < |s.pcs| && s.pcs[t].CheckLen2? && Refused(s.a, s.pcs[t])
    requires Check(s.a, s.pcs[t].l, s.pcs[t].bump).None?
    ensures !CurrentFits(s.a, s.pcs[t].l)
  {
    assert ThreadOk(s.a, t, s.pcs[t]);
    var l, ch := s.pcs[t].l, s.a.chunks[s.a.current];
    assert ChunkOk(ch);
    var seen := ch.(bump := s.pcs[t].bump);
    CheckIsFits(seen, l);
    if CurrentFits(s.a, l) {
      FitsLess(seen, ch, l);
    }
  }

  lemma {:induction false} OwnRefused(s: State, t: nat, act: Action)
    requires StateInv(s) && RefusedInv(s) && t < |s.pcs|
    ensures var s' := Step(s, t, act);
      |s'.pcs| == |s.pcs| && s'.a.current < |s'.a.chunks| && Refused(s'.a, s'.pcs[t])
  {
    assert ThreadOk(s.a, t, s.pcs[t]) && Refused(s.a, s.pcs[t]);
    if act.Run? && s.pcs[t].CheckLen2? && Check(s.a, s.pcs[t].l, s.pcs[t].bump).None? {
      CheckRefuses(s, t);
    }
  }

  /** A thread that holds the mutex is the only one in `try_new_chunk`, and one that was refused has left
      nobody there who installs a chunk. */
  lemma {:induction false} OthersRefused(s: State, t: nat, act: Action, u: nat)
    requires StateInv(s) && RefusedInv(s) && u < |s.pcs| && u != t
    ensures var s' := Step(s, t, act);
      |s'.pcs| == |s.pcs| && s'.pcs[u] == s.pcs[u] && s'.a.current < |s'.a.chunks| && Refused(s'.a, s.pcs[u])
  {
    assert Refused(s.a, s.pcs[u]) && ThreadOk(s.a, u, s.pcs[u]);
    if t < |s.pcs| && s.pcs[t].StoreChunk? {
      assert ThreadOk(s.a, t, s.pcs[t]);
      assert Growing(s.pcs[t]);
    } else {
      StepShrinks(s, t, act);
      ShrinksKeeps(s.a, Step(s, t, act).a, s.pcs[u]);
    }
  }

  lemma {:induction false} RefusedStep(s: State, t: nat, act: Action)
    requires StateInv(s) && RefusedInv(s)
    ensures RefusedInv(Step(s, t, act))
  {
    var s' := Step(s, t, act);
    if t < |s.pcs| {
      forall u | 0 <= u < |s'.pcs|
        ensures Refused(s'.a, s'.pcs[u])
      {
        if u == t {
          OwnRefused(s, t, act);
        } else {
          OthersRefused(s, t, act, u);
        }
      }
      OwnRefused(s, t, act);
      forall u | 0 <= u < |s'.pcs| && s'.pcs[u].Full?
        ensures NoneGrowing(s')
      {
        FullStops(s, t, act, u);
      }
    }
  }

  lemma {:induction false} FullStops(s: State, t: nat, act: Action, u: nat)
    requires StateInv(s) && RefusedInv(s) && t < |s.pcs| && u < |s.pcs|
    requires |Step(s, t, act).pcs| == |s.pcs| && Step(s, t, act).pcs[u].Full?
    ensures NoneGrowing(Step(s, t, act))
  {
    var s' := Step(s, t, act);
    forall v | 0 <= v < |s'.pcs|
      ensures !Growing(s'.pcs[v])
    {
      assert ThreadOk(s.a, u, s.pcs[u]) && ThreadOk(s.a, v, s.pcs[v]) && ThreadOk(s.a, t, s.pcs[t]);
      assert Refused(s.a, s.pcs[u]);
      if s.pcs[u].Full? {
        assert NoneGrowing(s);
      }
    }
  }

  lemma {:induction false} RefusedKept(block: nat, cap: nat, threads: nat, schedule: Schedule)
    requires 0 < block < HALF && block <= cap
    ensures RefusedInv(Exec(InitState(block, cap, threads), schedule))
  {
    if schedule != [] {
      var before, last := schedule[..|schedule| - 1], schedule[|schedule| - 1];
      RefusedKept(block, cap, threads, before);
      ExecKeeps(block, cap, threads, before);
      RefusedStep(Exec(InitState(block, cap, threads), before), last.0, last.1);
    }
  }

  /** In every interleaving, a thread that was told the arena is full works on the layout of its last call,
      which the current chunk does not fit, and no block can be added under the capacity; so it stays. */
  lemma {:induction false} FullIsFull(block: nat, cap: nat, threads: nat, schedule: Schedule, t: nat)
    requires 0 < block < HALF && block <= cap
    requires var s := Exec(InitState(block, cap, threads), schedule); t < |s.pcs| && s.pcs[t].Full?
    ensures var s0 := InitState(block, cap, threads);
      var a, asked := Exec(s0, schedule).a, Asked(s0, schedule, t);
      && asked.Some? && a.allocBytes + block > cap
      && a.current < |a.chunks| && !Fits(a.chunks[a.current], asked.value)
  {
    var s0 := InitState(block, cap, threads);
    RefusedKept(block, cap, threads, schedule);
    CallsKept(block, cap, threads, schedule);
    CapIsKept(block, cap, threads, schedule);
    BlockIsKept(block, cap, threads, schedule);
    var s := Exec(s0, schedule);
    assert Refused(s.a, s.pcs[t]) && WorksOn(s.pcs[t], Asked(s0, schedule, t));
  }

  lemma {:induction false} CapIsKept(block: nat, cap: nat, threads: nat, schedule: Schedule)
    ensures Exec(InitState(block, cap, threads), schedule).a.cap == cap
  {
    if schedule != [] {
      CapIsKept(block, cap, threads, schedule[..|schedule| - 1]);
    }
  }
}
