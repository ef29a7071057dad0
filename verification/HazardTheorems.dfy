/** What holds of every run of the hazard-pointer domain whose winning lock steps find the pointer
    they loaded, and what goes wrong in exactly the other runs. */
module HazardTheorems {
  import opened Lists
  import opened HazardMachine
  import opened HazardInvariant
  import opened HazardSteps

  lemma {:induction false} InitInv(clients: nat, sources: seq<int>)
    ensures StateInv(InitState(clients, sources))
  {
    var s := InitState(clients, sources);
    forall c | 0 <= c < |s.pcs|
      ensures ClientOk(s.m, c, s.pcs[c])
    {
      assert Owns(s.m, c, []);
    }
  }

  lemma {:induction false} ExecKeeps(s: State, events: seq<Event>)
    requires StateInv(s) && SoundRun(s, events)
    ensures StateInv(Exec(s, events))
  {
    if events != [] {
      ExecKeeps(s, events[..|events| - 1]);
      ApplyKeeps(Exec(s, events[..|events| - 1]), events[|events| - 1]);
    }
  }

  lemma {:induction false} ExecClients(s: State, events: seq<Event>)
    ensures |Exec(s, events).pcs| == |s.pcs|
  {
    if events != [] {
      ExecClients(s, events[..|events| - 1]);
    }
  }

  // ---------- Ownership ----------

  lemma {:induction false} ChaseIsFree(m: Mem, k: nat)
    requires MemOk(m)
    ensures ChaseFree(m, k) == if k < |m.free| then m.free[k] else NULL
  {
    if k > 0 {
      ChaseIsFree(m, k - 1);
      if k - 1 < |m.free| {
        assert FreeAt(m, k - 1);
      }
    }
  }

  lemma {:induction false} OnFreeListIsFree(m: Mem, r: int)
    requires MemOk(m) && r != NULL
    ensures OnFreeList(m, r) <==> r in m.free
  {
    if OnFreeList(m, r) {
      var k: nat :| ChaseFree(m, k) == r;
      ChaseIsFree(m, k);
    }
    if r in m.free {
      var k: nat :| k < |m.free| && m.free[k] == r;
      ChaseIsFree(m, k);
    }
  }

  lemma {:induction false} HeldIsOwned(s: State, c: int, r: int)
    requires StateInv(s) && 0 <= c < |s.pcs| && 0 <= r < |s.m.recs|
    ensures r in Held(s.pcs[c]) <==> s.m.owner[r] == c
  {
    assert ClientOk(s.m, c, s.pcs[c]);
    var held := Held(s.pcs[c]);
    if r in held {
      var i :| 0 <= i < |held| && held[i] == r;
      assert OwnsAt(s.m, c, held, i);
    }
  }

  lemma {:induction false} InvIsPartition(s: State)
    requires StateInv(s)
    ensures Partition(s)
  {
    forall r | 0 <= r < |s.m.recs|
      ensures Placed(s, r)
    {
      assert OwnerOk(s, r);
      OnFreeListIsFree(s.m, r);
      forall c | 0 <= c < |s.pcs|
        ensures r in Held(s.pcs[c]) <==> s.m.owner[r] == c
      {
        HeldIsOwned(s, c, r);
      }
      if r in s.m.free {
        var i :| 0 <= i < |s.m.free| && s.m.free[i] == r;
        assert FreeAt(s.m, i);
      } else {
        assert r in Held(s.pcs[s.m.owner[r]]);
      }
    }
  }

  /** In every sound run each record is on the available list exactly once or held by exactly one
      client exactly once; none is lost and no assertion fails. */
  lemma {:induction false} RecordsArePartitioned(clients: nat, sources: seq<int>, events: seq<Event>)
    requires SoundRun(InitState(clients, sources), events)
    ensures var s := Exec(InitState(clients, sources), events);
      && Partition(s)
      && (forall i: nat, j: nat | i < j && ChaseFree(s.m, i) != NULL :: ChaseFree(s.m, i) != ChaseFree(s.m, j))
      && (forall c | 0 <= c < |s.pcs| :: Distinct(Held(s.pcs[c])) && !s.pcs[c].Panicked?)
  {
    InitInv(clients, sources);
    ExecKeeps(InitState(clients, sources), events);
    var s := Exec(InitState(clients, sources), events);
    InvIsPartition(s);
    forall i: nat, j: nat | i < j && ChaseFree(s.m, i) != NULL
      ensures ChaseFree(s.m, i) != ChaseFree(s.m, j)
    {
      ChaseIsFree(s.m, i);
      ChaseIsFree(s.m, j);
      assert j < |s.m.free| ==> Apart(s.m.free, i, j);
    }
    forall c | 0 <= c < |s.pcs|
      ensures Distinct(Held(s.pcs[c])) && !s.pcs[c].Panicked?
    {
      assert ClientOk(s.m, c, s.pcs[c]);
    }
  }

  /** `acquire_many::<N>` yields N distinct records whose links chain in array order and end in null,
      whatever mix of reused and new records it used; and so it stays until the array is dropped. */
  lemma {:induction false} AcquiredArrayIsChained(clients: nat, sources: seq<int>, events: seq<Event>, c: nat)
    requires SoundRun(InitState(clients, sources), events) && c < clients
    ensures var s := Exec(InitState(clients, sources), events);
      && c < |s.pcs|
      && (s.pcs[c].Holding? ==>
            var arr := s.pcs[c].arr;
            && |arr| == s.pcs[c].n && Distinct(arr)
            && (forall i | 0 <= i < |arr| :: 0 <= arr[i] < |s.m.recs|)
            && (forall i | 0 <= i < |arr| :: Available(s.m, arr[i]) == After(arr, i)))
  {
    InitInv(clients, sources);
    ExecKeeps(InitState(clients, sources), events);
    ExecClients(InitState(clients, sources), events);
    var s := Exec(InitState(clients, sources), events);
    assert ClientOk(s.m, c, s.pcs[c]);
    if s.pcs[c].Holding? {
      var arr := s.pcs[c].arr;
      forall i | 0 <= i < |arr|
        ensures 0 <= arr[i] < |s.m.recs| && Available(s.m, arr[i]) == After(arr, i)
      {
        assert OwnsAt(s.m, c, arr, i);
        assert i < |arr| - 1 ==> LinkAt(s.m, arr, i);
      }
    }
  }

  /** No record on the available list protects anything. */
  lemma {:induction false} AvailableRecordsAreClear(clients: nat, sources: seq<int>, events: seq<Event>, r: int)
    requires SoundRun(InitState(clients, sources), events)
    requires r != NULL && OnFreeList(Exec(InitState(clients, sources), events).m, r)
    ensures Protected(Exec(InitState(clients, sources), events).m, r) == 0
  {
    InitInv(clients, sources);
    ExecKeeps(InitState(clients, sources), events);
    var s := Exec(InitState(clients, sources), events);
    OnFreeListIsFree(s.m, r);
    var i :| 0 <= i < |s.m.free| && s.m.free[i] == r;
    assert FreeAt(s.m, i);
  }

  /** The record reached from `head` by following `k` `next` pointers, or null. */
  ghost function ChaseAll(m: Mem, k: nat): int {
    if k == 0 then m.allHead
    else
      var r := ChaseAll(m, k - 1);
      if 0 <= r < |m.recs| then m.recs[r].next else NULL
  }

  lemma {:induction false} ChaseIsAll(m: Mem, k: nat)
    requires MemOk(m)
    ensures ChaseAll(m, k) == if k < |m.all| then m.all[k] else NULL
  {
    if k > 0 {
      ChaseIsAll(m, k - 1);
      if k - 1 < |m.all| {
        assert AllAt(m, k - 1);
      }
    }
  }

  /** Every record that its creator has finished publishing is on the list of all records. */
  lemma {:induction false} RecordsStayListed(clients: nat, sources: seq<int>, events: seq<Event>, r: int)
    requires SoundRun(InitState(clients, sources), events)
    requires var s := Exec(InitState(clients, sources), events);
      0 <= r < |s.m.recs| && forall c | 0 <= c < |s.pcs| && s.pcs[c].NewRec? :: s.pcs[c].rec != r
    ensures exists k: nat :: ChaseAll(Exec(InitState(clients, sources), events).m, k) == r
  {
    InitInv(clients, sources);
    ExecKeeps(InitState(clients, sources), events);
    var s := Exec(InitState(clients, sources), events);
    assert OwnerOk(s, r);
    var k: nat :| k < |s.m.all| && s.m.all[k] == r;
    ChaseIsAll(s.m, k);
  }

  // ---------- Protection ----------

  ghost function OutOf(pc: Pc): seq<int> {
    match pc
    case Holding(_, _, out) => out
    case ProtectLoad(_, _, _, out) => out
    case ProtectStore(_, _, _, out, _) => out
    case ProtectCheck(_, _, _, out, _) => out
    case ProtectReset(_, _, _, out, _) => out
    case _ => []
  }

  /** Slot `i` of `arr` passed its re-check in state `s`: the pointer is published and the source
      holds it at that instant. */
  ghost predicate Validates(s: State, c: nat, arr: seq<int>, i: nat, p: int) {
    && c < |s.pcs| && s.pcs[c].ProtectCheck? && s.pcs[c].arr == arr && |s.pcs[c].out| == i && s.pcs[c].p == p
    && i < |arr| && Protected(s.m, arr[i]) == p && SourceOf(s.m, s.pcs[c].srcs, i) == p
  }

  /** The same of one client's own step. */
  lemma {:induction false} ActValidates(m: Mem, c: int, pc: Pc, a: Action, i: nat)
    requires |m.owner| == |m.recs| && ClientOk(m, c, pc) && i < |OutOf(Act(m, c, pc, a).1)|
    ensures var pc' := Act(m, c, pc, a).1;
      || (i < |OutOf(pc)| && OutOf(pc)[i] == OutOf(pc')[i] && Held(pc) == Held(pc'))
      || (pc.ProtectCheck? && pc.arr == Held(pc') && |pc.out| == i && pc.p == OutOf(pc')[i] && i < |pc.arr|
          && Protected(m, pc.arr[i]) == pc.p && SourceOf(m, pc.srcs, i) == pc.p)
  {
    if !(a.Run? && pc.ProtectCheck?) {
      OnlyChecksReport(m, c, pc, a);
    }
  }

  /** No other step lengthens what a client's slots report, or changes it. */
  lemma {:induction false} OnlyChecksReport(m: Mem, c: int, pc: Pc, a: Action)
    requires !(a.Run? && pc.ProtectCheck?)
    ensures var pc' := Act(m, c, pc, a).1; OutOf(pc') == [] || (OutOf(pc') == OutOf(pc) && Held(pc') == Held(pc))
  {
    if a.Run? {
      TickReports(m, c, pc, a.spurious);
    }
  }

  lemma {:induction false} TickReports(m: Mem, c: int, pc: Pc, sp: bool)
    requires !pc.ProtectCheck?
    ensures var pc' := Tick(m, c, pc, sp).1; OutOf(pc') == [] || (OutOf(pc') == OutOf(pc) && Held(pc') == Held(pc))
  {
  }

  /** A step adds to what a client's slots report only by passing a re-check. */
  lemma {:induction false} StepValidates(s: State, e: Event, c: nat, i: nat)
    requires StateInv(s) && c < |s.pcs| && i < |OutOf(Apply(s, e).pcs[c])|
    ensures var pc := Apply(s, e).pcs[c];
      || (i < |OutOf(s.pcs[c])| && OutOf(s.pcs[c])[i] == OutOf(pc)[i] && Held(s.pcs[c]) == Held(pc))
      || Validates(s, c, Held(pc), i, OutOf(pc)[i])
  {
    assert ClientOk(s.m, c, s.pcs[c]);
    if e.By? && e.c == c {
      ActValidates(s.m, c, s.pcs[c], e.a, i);
    }
  }

  lemma {:induction false} SlotIsPublished(s: State, c: nat, i: nat)
    requires StateInv(s) && c < |s.pcs| && i < |OutOf(s.pcs[c])|
    ensures var arr := Held(s.pcs[c]); i < |arr| && Protected(s.m, arr[i]) == OutOf(s.pcs[c])[i]
  {
    assert ClientOk(s.m, c, s.pcs[c]);
    assert ShowsAt(s.m, Held(s.pcs[c]), OutOf(s.pcs[c]), i);
  }

  /** In every state after step `k` of the run record `r` publishes `p`. */
  ghost predicate PublishedSince(s0: State, events: seq<Event>, k: nat, r: int, p: int) {
    forall j | k < j <= |events| :: Publishes(Exec(s0, events[..j]), r, p)
  }

  ghost predicate Publishes(s: State, r: int, p: int) { Protected(s.m, r) == p }

  lemma {:induction false} PublishedLonger(s0: State, events: seq<Event>, before: seq<Event>, k: nat, r: int, p: int)
    requires events != [] && before == events[..|events| - 1] && PublishedSince(s0, before, k, r, p)
    requires Publishes(Exec(s0, events), r, p)
    ensures PublishedSince(s0, events, k, r, p)
  {
    forall j | k < j <= |events|
      ensures Publishes(Exec(s0, events[..j]), r, p)
    {
      if j < |events| {
        assert events[..j] == before[..j];
        assert Publishes(Exec(s0, before[..j]), r, p);
      } else {
        assert events[..j] == events;
      }
    }
  }

  /** Slot `i` of `arr` passed its re-check in step `k` and has published `p` ever since. */
  ghost predicate ValidatedAt(s0: State, events: seq<Event>, c: nat, arr: seq<int>, i: nat, p: int, k: nat)
    requires k < |events| && i < |arr|
  {
    Validates(Exec(s0, events[..k]), c, arr, i, p) && PublishedSince(s0, events, k, arr[i], p)
  }

  /** Whatever happens to the sources, a pointer that a slot reports was published by its record when a
      re-read found the source still equal to it, and has been published ever since. */
  lemma {:induction false} ProtectedPointersAreValidated(clients: nat, sources: seq<int>, events: seq<Event>, c: nat,
                                                         i: nat)
    requires SoundRun(InitState(clients, sources), events) && c < clients
    requires var s := Exec(InitState(clients, sources), events); c < |s.pcs| && i < |OutOf(s.pcs[c])|
    ensures var s := Exec(InitState(clients, sources), events);
      var arr, p := Held(s.pcs[c]), OutOf(s.pcs[c])[i];
      && i < |arr| && Publishes(s, arr[i], p)
      && exists k: nat | k < |events| :: ValidatedAt(InitState(clients, sources), events, c, arr, i, p, k)
  {
    var s0 := InitState(clients, sources);
    var before := events[..|events| - 1];
    LastStepValidates(clients, sources, events, c, i);
    var s := Exec(s0, events);
    var arr, p := Held(s.pcs[c]), OutOf(s.pcs[c])[i];
    if Validates(Exec(s0, before), c, arr, i, p) {
      ValidatedNow(s0, events, c, arr, i, p);
    } else {
      ProtectedPointersAreValidated(clients, sources, before, c, i);
      var k: nat :| k < |before| && ValidatedAt(s0, before, c, arr, i, p, k);
      ValidatedBefore(s0, events, before, c, arr, i, p, k);
    }
  }

  lemma {:induction false} ValidatedNow(s0: State, events: seq<Event>, c: nat, arr: seq<int>, i: nat, p: int)
    requires events != [] && i < |arr| && Validates(Exec(s0, events[..|events| - 1]), c, arr, i, p)
    requires Publishes(Exec(s0, events), arr[i], p)
    ensures ValidatedAt(s0, events, c, arr, i, p, |events| - 1)
  {
    assert events[..|events|] == events;
  }

  lemma {:induction false} ValidatedBefore(s0: State, events: seq<Event>, before: seq<Event>, c: nat, arr: seq<int>,
                                           i: nat, p: int, k: nat)
    requires events != [] && before == events[..|events| - 1] && k < |before| && i < |arr|
    requires ValidatedAt(s0, before, c, arr, i, p, k) && Publishes(Exec(s0, events), arr[i], p)
    ensures ValidatedAt(s0, events, c, arr, i, p, k)
  {
    assert before[..k] == events[..k];
    PublishedLonger(s0, events, before, k, arr[i], p);
  }

  /** The last step of a run either passed the re-check of a slot, or left what the slot reports alone. */
  lemma {:induction false} LastStepValidates(clients: nat, sources: seq<int>, events: seq<Event>, c: nat, i: nat)
    requires SoundRun(InitState(clients, sources), events) && c < clients
    requires var s := Exec(InitState(clients, sources), events); c < |s.pcs| && i < |OutOf(s.pcs[c])|
    ensures events != []
    ensures var s0, s := Exec(InitState(clients, sources), events[..|events| - 1]), Exec(InitState(clients, sources),
      events);
      var arr, p := Held(s.pcs[c]), OutOf(s.pcs[c])[i];
      && c < |s0.pcs| && i < |arr| && Publishes(s, arr[i], p)
      && (Validates(s0, c, arr, i, p) || (i < |OutOf(s0.pcs[c])| && OutOf(s0.pcs[c])[i] == p && Held(s0.pcs[c]) == arr))
  {
    var s0 := InitState(clients, sources);
    InitInv(clients, sources);
    ExecKeeps(s0, events);
    SlotIsPublished(Exec(s0, events), c, i);
    var before := events[..|events| - 1];
    ExecKeeps(s0, before);
    ExecClients(s0, before);
    StepValidates(Exec(s0, before), events[|events| - 1], c, i);
  }
}
