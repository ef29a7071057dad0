/**
  The writer queue as a step system: any number of threads link their writers concurrently by a
  compare-exchange on `newest_writer`.  Each thread links one writer, named by the thread's number.
 */
module WriteThread {

  import opened Lists

  datatype Pc =
    | Idle
      // about to load newest_writer
    | Load
      // about to store it in the writer's link_older
    | Store(newest: int)
      // about to compare-exchange newest_writer
    | Cas(newest: int)
    | Done(leader: bool)

  /** `order` is history: the writers in the order of their successful compare-exchanges. */
  datatype State = State(newest: int, older: seq<int>, pcs: seq<Pc>, order: seq<nat>)

  ghost function InitState(writers: nat): State {
    State(NULL, seq(writers, _ => NULL), seq(writers, _ => Idle), [])
  }

  /** One step of `link_writer` by thread `t`; a weak compare-exchange may fail spuriously. */
  ghost function Step(s: State, t: nat, spurious: bool): State
    requires |s.older| == |s.pcs|
  {
    if t >= |s.pcs| then s
    else
      match s.pcs[t]
      case Idle => s.(pcs := s.pcs[t := Load])
      case Load => s.(pcs := s.pcs[t := Store(s.newest)])
      case Store(w) => s.(older := s.older[t := w], pcs := s.pcs[t := Cas(w)])
      case Cas(w) =>
        if s.newest == w && !spurious
        then s.(newest := t, pcs := s.pcs[t := Done(w == NULL)], order := s.order + [t])
        else s.(pcs := s.pcs[t := Store(s.newest)])
      case Done(_) => s
  }

  ghost function Exec(s: State, schedule: seq<(nat, bool)>): (r: State)
    requires |s.older| == |s.pcs|
    ensures |r.older| == |r.pcs| == |s.pcs|
  {
    if schedule == [] then s
    else
      var last := schedule[|schedule| - 1];
      Step(Exec(s, schedule[..|schedule| - 1]), last.0, last.1)
  }

  // ---------- Invariant ----------

  /** Following `link_older` from `w` visits exactly the writers `xs` and ends in null. */
  ghost predicate Chain(older: seq<int>, w: int, xs: seq<nat>)
    decreases |xs|
  {
    if xs == [] then w == NULL
    else w == xs[0] && 0 <= w < |older| && Chain(older, older[w], xs[1..])
  }

  function Reversed(xs: seq<nat>): seq<nat> {
    if xs == [] then [] else [xs[|xs| - 1]] + Reversed(xs[..|xs| - 1])
  }

  ghost predicate ThreadOk(s: State, t: nat)
    requires t < |s.pcs| == |s.older|
  {
    && (t in s.order <==> s.pcs[t].Done?)
    && (s.pcs[t].Cas? ==> s.older[t] == s.pcs[t].newest)
    && (s.pcs[t].Done? ==> (s.pcs[t].leader <==> s.order[0] == t))
    && (s.pcs[t].Store? || s.pcs[t].Cas? ==> s.pcs[t].newest == NULL || s.pcs[t].newest in s.order)
  }

  ghost predicate Inv(s: State) {
    && |s.older| == |s.pcs|
    && s.newest == Last(s.order)
    && (forall i | 0 <= i < |s.order| :: s.order[i] < |s.pcs|)
    && (forall i, j | 0 <= i < j < |s.order| :: s.order[i] != s.order[j])
    && Chain(s.older, s.newest, Reversed(s.order))
    && (forall t | 0 <= t < |s.pcs| :: ThreadOk(s, t))
  }

  lemma {:induction false} ReversedHas(xs: seq<nat>, x: nat)
    ensures x in Reversed(xs) <==> x in xs
  {
    if xs != [] {
      ReversedHas(xs[..|xs| - 1], x);
      assert xs == xs[..|xs| - 1] + [xs[|xs| - 1]];
    }
  }

  /** A chain does not see stores to writers outside it. */
  lemma {:induction false} ChainFrame(older: seq<int>, w: int, xs: seq<nat>, t: nat, v: int)
    requires Chain(older, w, xs) && t < |older| && t !in xs
    ensures Chain(older[t := v], w, xs)
    decreases |xs|
  {
    if xs != [] {
      ChainFrame(older, older[w], xs[1..], t, v);
    }
  }

  lemma {:induction false} ChainUnique(older: seq<int>, w: int, xs: seq<nat>, ys: seq<nat>)
    requires Chain(older, w, xs) && Chain(older, w, ys)
    ensures xs == ys
    decreases |xs|
  {
    if xs != [] && ys != [] {
      ChainUnique(older, older[w], xs[1..], ys[1..]);
      assert xs == [xs[0]] + xs[1..] && ys == [ys[0]] + ys[1..];
    }
  }

  lemma {:induction false} StoreKeeps(s: State, t: nat, spurious: bool)
    requires Inv(s) && t < |s.pcs| && s.pcs[t].Store?
    ensures Inv(Step(s, t, spurious))
  {
    var s' := Step(s, t, spurious);
    assert ThreadOk(s, t);
    ReversedHas(s.order, t);
    ChainFrame(s.older, s.newest, Reversed(s.order), t, s.pcs[t].newest);
    forall u | 0 <= u < |s'.pcs|
      ensures ThreadOk(s', u)
    {
      assert ThreadOk(s, u);
    }
  }

  lemma {:induction false} LinkChain(older: seq<int>, newest: int, order: seq<nat>, t: nat)
    requires Chain(older, newest, Reversed(order)) && t < |older| && older[t] == newest
    ensures Chain(older, t, Reversed(order + [t]))
  {
    assert (order + [t])[..|order|] == order;
    assert Reversed(order + [t]) == [t] + Reversed(order);
    assert ([t] + Reversed(order))[1..] == Reversed(order);
  }

  /** Winning the compare-exchange puts the writer in front of the chain. */
  lemma {:induction false} LinkKeeps(s: State, t: nat)
    requires Inv(s) && t < |s.pcs| && s.pcs[t].Cas? && s.newest == s.pcs[t].newest
    ensures Inv(Step(s, t, false))
  {
    var s' := Step(s, t, false);
    assert ThreadOk(s, t);
    LinkChain(s.older, s.newest, s.order, t);
    forall u | 0 <= u < |s'.pcs|
      ensures ThreadOk(s', u)
    {
      LinkThread(s, t, u);
    }
  }

  lemma {:induction false} LinkThread(s: State, t: nat, u: nat)
    requires |s.older| == |s.pcs| && t < |s.pcs| && u < |s.pcs| && ThreadOk(s, t) && ThreadOk(s, u)
    requires s.pcs[t].Cas? && s.newest == s.pcs[t].newest == Last(s.order)
    ensures ThreadOk(Step(s, t, false), u)
  {
  }

  lemma {:induction false} StepKeeps(s: State, t: nat, spurious: bool)
    requires Inv(s)
    ensures Inv(Step(s, t, spurious))
  {
    if t >= |s.pcs| {
    } else if s.pcs[t].Store? {
      StoreKeeps(s, t, spurious);
    } else if s.pcs[t].Cas? && s.newest == s.pcs[t].newest && !spurious {
      LinkKeeps(s, t);
    } else {
      var s' := Step(s, t, spurious);
      assert ThreadOk(s, t);
      forall u | 0 <= u < |s'.pcs|
        ensures ThreadOk(s', u)
      {
        assert ThreadOk(s, u);
      }
    }
  }

  lemma {:induction false} ExecKeeps(writers: nat, schedule: seq<(nat, bool)>)
    ensures Inv(Exec(InitState(writers), schedule))
  {
    if schedule != [] {
      ExecKeeps(writers, schedule[..|schedule| - 1]);
      var last := schedule[|schedule| - 1];
      StepKeeps(Exec(InitState(writers), schedule[..|schedule| - 1]), last.0, last.1);
    }
  }

  // ---------- Theorems ----------

  /** In every interleaving, the chain from `newest_writer` is exactly the linked writers in reverse order
      of their compare-exchanges, none of them twice. */
  lemma {:induction false} QueueIsReverseLinkOrder(writers: nat, schedule: seq<(nat, bool)>)
    ensures var s := Exec(InitState(writers), schedule);
      && Chain(s.older, s.newest, Reversed(s.order))
      && (forall xs | Chain(s.older, s.newest, xs) :: xs == Reversed(s.order))
      && (forall i, j | 0 <= i < j < |s.order| :: s.order[i] != s.order[j])
      && (forall t | 0 <= t < |s.pcs| :: t in s.order <==> s.pcs[t].Done?)
  {
    ExecKeeps(writers, schedule);
    var s := Exec(InitState(writers), schedule);
    forall xs | Chain(s.older, s.newest, xs)
      ensures xs == Reversed(s.order)
    {
      ChainUnique(s.older, s.newest, xs, Reversed(s.order));
    }
    forall t | 0 <= t < |s.pcs|
      ensures t in s.order <==> s.pcs[t].Done?
    {
      assert ThreadOk(s, t);
    }
  }

  /** Exactly one linked writer reports leadership: the first to win. */
  lemma {:induction false} FirstWinnerLeads(writers: nat, schedule: seq<(nat, bool)>, t: nat)
    requires t < |Exec(InitState(writers), schedule).pcs|
    ensures var s := Exec(InitState(writers), schedule);
      && (s.pcs[t] == Done(true) <==> s.order != [] && s.order[0] == t)
      && (s.order != [] ==> s.order[0] < |s.pcs| && s.pcs[s.order[0]] == Done(true))
  {
    ExecKeeps(writers, schedule);
    var s := Exec(InitState(writers), schedule);
    assert ThreadOk(s, t);
    if s.order != [] {
      assert ThreadOk(s, s.order[0]);
    }
  }

  // ---------- Every writer gets linked ----------

  /** Steps left for a thread that runs alone without spurious failures. */
  ghost function Way(s: State, t: nat): nat
    requires t < |s.pcs|
  {
    match s.pcs[t]
    case Idle => 8
    case Load => 7
    case Store(w) => if w == s.newest then 2 else 4
    case Cas(w) => if w == s.newest then 1 else 3
    case Done(_) => 0
  }

  ghost function Alone(t: nat, k: nat): seq<(nat, bool)> { seq(k, _ => (t, false)) }

  lemma {:induction false} AloneSnoc(s0: State, schedule: seq<(nat, bool)>, t: nat, k: nat)
    requires |s0.older| == |s0.pcs|
    ensures Exec(s0, schedule + Alone(t, k + 1)) == Step(Exec(s0, schedule + Alone(t, k)), t, false)
  {
    var all := schedule + Alone(t, k + 1);
    assert all[..|all| - 1] == schedule + Alone(t, k);
    assert all[|all| - 1] == (t, false);
  }

  /** From every reachable state, a thread left alone links its writer, in front of those linked before. */
  lemma {:induction false} WriterGetsLinked(writers: nat, schedule: seq<(nat, bool)>, t: nat, k0: nat) returns (k: nat)
    requires t < writers
    ensures var s := Exec(InitState(writers), schedule + Alone(t, k));
      t < |s.pcs| && s.pcs[t].Done? && t in s.order
    decreases Way(Exec(InitState(writers), schedule + Alone(t, k0)), t)
  {
    var s0 := InitState(writers);
    var s := Exec(s0, schedule + Alone(t, k0));
    ExecKeeps(writers, schedule + Alone(t, k0));
    assert ThreadOk(s, t);
    if s.pcs[t].Done? {
      k := k0;
    } else {
      AloneSnoc(s0, schedule, t, k0);
      k := WriterGetsLinked(writers, schedule, t, k0 + 1);
    }
  }
}
