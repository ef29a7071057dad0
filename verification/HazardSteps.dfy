/** Every step of every client keeps the invariant of the hazard-pointer domain, provided that a step
    that wins the lock bit finds the pointer it loaded. */
module HazardSteps {
  import opened Lists
  import opened HazardMachine
  import opened HazardInvariant

  ghost function RunStep(s: State, c: nat, spurious: bool): State {
    Step(s, c, Run(spurious))
  }

  // ---------- Acquiring from the free list ----------

  lemma {:induction false} LoadAvailKeeps(s: State, c: nat, sp: bool)
    requires StateInv(s) && c < |s.pcs| && s.pcs[c].LoadAvail?
    ensures StateInv(RunStep(s, c, sp))
  {
    assert ClientOk(s.m, c, s.pcs[c]);
    var n := s.pcs[c].n;
    if s.m.avail == Head(NULL, false) {
      LocalRule(s, c, Collect(n, [], NULL, []));
    } else {
      if !s.m.avail.locked {
        assert FreeAt(s.m, 0);
      }
      LocalRule(s, c, FetchOr(n, s.m.avail));
    }
  }

  /** Memory after client `c` has won the lock bit. */
  ghost function Locked(m: Mem, c: int): Mem {
    m.(avail := m.avail.(locked := true), holder := c)
  }

  lemma {:induction false} LockKeepsMem(m: Mem, c: nat)
    requires MemOk(m) && !m.avail.locked
    ensures MemOk(Locked(m, c)) && forall d | d != c && d != NULL :: Spared(m, Locked(m, c), d)
  {
    var m' := Locked(m, c);
    assert forall i | 0 <= i < |m.free| :: FreeAt(m, i) ==> FreeAt(m', i);
    assert forall i | 0 <= i < |m.all| :: AllAt(m, i) ==> AllAt(m', i);
  }

  /** Winning the lock bit keeps the invariant if the client goes on as a holder of the lock should. */
  lemma {:induction false} LockRule(s: State, c: nat, pc': Pc)
    requires StateInv(s) && c < |s.pcs| && s.pcs[c].FetchOr? && !s.m.avail.locked
    requires HasLock(pc') && PcOk(s.m, pc')
    ensures StateInv(State(Locked(s.m, c), s.pcs[c := pc']))
  {
    assert ClientOk(s.m, c, s.pcs[c]);
    var s' := State(Locked(s.m, c), s.pcs[c := pc']);
    LockKeepsMem(s.m, c);
    assert forall r | 0 <= r < |s.m.recs| && s.m.owner[r] == c :: r in Held(s.pcs[c]);
    SameOwners(s, s', c);
    StepRule(s, s', c);
  }

  lemma {:induction false} FetchOrKeeps(s: State, c: nat, sp: bool)
    requires StateInv(s) && c < |s.pcs| && s.pcs[c].FetchOr?
    requires !s.m.avail.locked ==> s.pcs[c].seen == s.m.avail
    ensures StateInv(RunStep(s, c, sp))
  {
    assert ClientOk(s.m, c, s.pcs[c]);
    var s' := RunStep(s, c, sp);
    if s.m.avail.locked {
      assert s'.m == s.m;
      LocalRule(s, c, LoadAvail(s.pcs[c].n));
    } else {
      assert [s.m.avail.ptr] == s.m.free[..1];
      LockRule(s, c, s'.pcs[c]);
    }
  }

  /** The link of the last record taken is that of the free list. */
  lemma {:induction false} TakingLink(m: Mem, n: nat, taken: seq<int>)
    requires MemOk(m) && Taking(m, n, taken)
    ensures var next := Available(m, Last(taken));
      && next == After(m.free, |taken| - 1)
      && (next != NULL && |taken| < n ==> Taking(m, n, taken + [next]))
  {
    assert FreeAt(m, |taken| - 1);
    var next := Available(m, Last(taken));
    if next != NULL {
      assert taken + [next] == m.free[..|taken| + 1];
    }
  }

  lemma {:induction false} TraverseKeeps(s: State, c: nat, sp: bool)
    requires StateInv(s) && c < |s.pcs| && s.pcs[c].Traverse?
    ensures StateInv(RunStep(s, c, sp))
  {
    assert ClientOk(s.m, c, s.pcs[c]);
    var n, taken := s.pcs[c].n, s.pcs[c].taken;
    TakingLink(s.m, n, taken);
    var next := Available(s.m, Last(taken));
    if next != NULL && |taken| < n {
      LocalRule(s, c, Traverse(n, taken + [next]));
    } else {
      LocalRule(s, c, Unlock(n, taken, next));
    }
  }

  lemma {:induction false} SuffixFree(m: Mem, k: nat, i: int)
    requires |m.owner| == |m.recs| && FreeOk(m) && k <= |m.free| && 0 <= i < |m.free| - k
    ensures m.free[k..][i] == m.free[k + i] && FreeAt(m, k + i)
    ensures After(m.free[k..], i) == After(m.free, k + i)
    ensures m.free[k..][i] !in m.free[..k]
  {
    assert FreeAt(m, k + i);
    forall j | 0 <= j < k
      ensures m.free[..k][j] != m.free[k..][i]
    {
      assert Apart(m.free, j, k + i);
    }
  }

  /** Memory after the unlocking store that leaves all but `taken` on the list. */
  ghost function UnlockedMem(m: Mem, c: int, n: nat, taken: seq<int>): Mem {
    StepUnlock(m, c, n, taken, After(m.free, |taken| - 1)).0
  }

  lemma {:induction false} UnlockedFree(m: Mem, c: nat, n: nat, taken: seq<int>)
    requires MemOk(m) && |taken| <= |m.free| && taken == m.free[..|taken|]
    ensures var m' := UnlockedMem(m, c, n, taken);
      |m'.owner| == |m'.recs| && m'.free == m.free[|taken|..] && Distinct(m'.free)
          && forall i | 0 <= i < |m'.free| :: FreeAt(m', i)
  {
    var m', k := UnlockedMem(m, c, n, taken), |taken|;
    forall i | 0 <= i < |m'.free|
      ensures FreeAt(m', i)
    {
      SuffixFree(m, k, i);
    }
    forall i, j | 0 <= i < |m'.free| && 0 <= j < |m'.free|
      ensures Apart(m'.free, i, j)
    {
      assert Apart(m.free, k + i, k + j);
    }
  }

  /** After the unlocking store the remaining list is the rest of `free`. */
  lemma {:induction false} UnlockKeepsMem(m: Mem, c: nat, n: nat, taken: seq<int>)
    requires MemOk(m) && |taken| <= |m.free| && taken == m.free[..|taken|]
    ensures MemOk(UnlockedMem(m, c, n, taken))
  {
    var m', k := UnlockedMem(m, c, n, taken), |taken|;
    UnlockedFree(m, c, n, taken);
    forall r | 0 <= r < |m'.recs| && m'.owner[r] == FREE
      ensures r in m'.free
    {
      assert m.owner[r] == FREE && r in m.free && m.free == m.free[..k] + m.free[k..];
    }
    assert forall i | 0 <= i < |m.all| :: AllAt(m, i) ==> AllAt(m', i);
  }

  lemma {:induction false} UnlockClient(m: Mem, c: nat, n: nat, taken: seq<int>)
    requires MemOk(m) && |taken| <= |m.free| && taken == m.free[..|taken|] && Owns(m, c, [])
    ensures var m' := UnlockedMem(m, c, n, taken); |m'.owner| == |m'.recs| && Owns(m', c, taken) && Links(m', taken)
  {
    var m' := UnlockedMem(m, c, n, taken);
    forall i | 0 <= i < |taken|
      ensures OwnsAt(m', c, taken, i)
    {
      assert FreeAt(m, i);
    }
    forall i, j | 0 <= i < |taken| && 0 <= j < |taken|
      ensures Apart(taken, i, j)
    {
      assert Apart(m.free, i, j);
    }
    forall i | 0 <= i < |taken| - 1
      ensures LinkAt(m', taken, i)
    {
      assert FreeAt(m, i);
    }
  }

  lemma {:induction false} TakenIsFree(m: Mem, taken: seq<int>, r: int)
    requires MemOk(m) && |taken| <= |m.free| && taken == m.free[..|taken|] && r in taken
    ensures 0 <= r < |m.recs| && m.owner[r] == FREE
  {
    var i :| 0 <= i < |taken| && taken[i] == r;
    assert FreeAt(m, i);
  }

  lemma {:induction false} UnlockSpares(m: Mem, c: nat, n: nat, taken: seq<int>, d: int)
    requires MemOk(m) && |taken| <= |m.free| && taken == m.free[..|taken|] && m.holder == c && d != c && d != FREE
    ensures Spared(m, UnlockedMem(m, c, n, taken), d)
  {
    var m' := UnlockedMem(m, c, n, taken);
    forall r | 0 <= r < |m.recs|
      ensures SameFor(m, m', d, r)
    {
      if r in taken {
        TakenIsFree(m, taken, r);
      }
    }
  }

  lemma {:induction false} UnlockOwners(s: State, s': State, c: nat, n: nat, taken: seq<int>)
    requires StateInv(s) && c < |s.pcs| == |s'.pcs| && s'.pcs == s.pcs[c := s'.pcs[c]] && s.pcs[c].Unlock?
    requires |taken| <= |s.m.free| && taken == s.m.free[..|taken|] && s'.m == UnlockedMem(s.m, c, n, taken)
    ensures forall r | 0 <= r < |s'.m.recs| :: OwnerOk(s', r)
  {
    forall r | 0 <= r < |s'.m.recs|
      ensures OwnerOk(s', r)
    {
      assert OwnerOk(s, r);
      if r in taken {
        TakenIsFree(s.m, taken, r);
      }
    }
  }

  lemma {:induction false} UnlockKeeps(s: State, c: nat, sp: bool)
    requires StateInv(s) && c < |s.pcs| && s.pcs[c].Unlock?
    ensures StateInv(RunStep(s, c, sp))
  {
    assert ClientOk(s.m, c, s.pcs[c]);
    var s', n, taken := RunStep(s, c, sp), s.pcs[c].n, s.pcs[c].taken;
    assert s'.m == UnlockedMem(s.m, c, n, taken);
    UnlockKeepsMem(s.m, c, n, taken);
    UnlockClient(s.m, c, n, taken);
    forall d | 0 <= d < |s.pcs| && d != c
      ensures Spared(s.m, s'.m, d)
    {
      UnlockSpares(s.m, c, n, taken, d);
    }
    UnlockOwners(s, s', c, n, taken);
    StepRule(s, s', c);
  }

  /** Cutting or setting the last link of an owned array leaves the links before it alone. */
  lemma {:induction false} LastLinkWrite(m: Mem, c: int, arr: seq<int>, v: int)
    requires |m.owner| == |m.recs| && c != FREE && arr != [] && Links(m, arr)
    requires forall i | 0 <= i < |arr| :: OwnsAt(m, c, arr, i)
    requires Distinct(arr)
    ensures var m' := SetAvailable(m, Last(arr), v);
      && OwnWrite(m, m', c, Last(arr)) && Links(m', arr) && Available(m', Last(arr)) == v
      && (forall r :: Protected(m', r) == Protected(m, r))
  {
    var m' := SetAvailable(m, Last(arr), v);
    assert OwnsAt(m, c, arr, |arr| - 1);
    forall i | 0 <= i < |arr| - 1
      ensures LinkAt(m', arr, i)
    {
      assert LinkAt(m, arr, i) && Apart(arr, i, |arr| - 1);
    }
  }

  lemma {:induction false} NullTailKeeps(s: State, c: nat, sp: bool)
    requires StateInv(s) && c < |s.pcs| && s.pcs[c].NullTail?
    ensures StateInv(RunStep(s, c, sp))
  {
    assert ClientOk(s.m, c, s.pcs[c]);
    var taken := s.pcs[c].taken;
    if taken == [] {
      LocalRule(s, c, Collect(s.pcs[c].n, [], NULL, []));
    } else {
      LastLinkWrite(s.m, c, taken, NULL);
      assert OwnsAt(s.m, c, taken, 0);
      OwnWriteRule(s, RunStep(s, c, sp), c, Last(taken));
    }
  }

  // ---------- Building the array ----------

  /** Reading one more link of the chain. */
  lemma {:induction false} CollectReads(m: Mem, c: int, n: nat, arr: seq<int>, chain: seq<int>)
    requires |m.owner| == |m.recs| && Owns(m, c, chain) && Links(m, chain) && Ended(m, chain)
    requires |arr| < |chain| <= n && arr == chain[..|arr|]
    ensures var head := chain[|arr|]; var pc' := Continue(n, arr + [head], Available(m, head), chain);
      PcOk(m, pc') && Held(pc') == chain
  {
    var k := |arr|;
    assert arr + [chain[k]] == chain[..k + 1];
    if k + 1 < |chain| {
      assert LinkAt(m, chain, k) && OwnsAt(m, c, chain, k + 1);
    } else {
      assert arr + [chain[k]] == chain;
    }
  }

  lemma {:induction false} CollectReusesKeeps(s: State, c: nat, sp: bool)
    requires StateInv(s) && c < |s.pcs| && s.pcs[c].Collect? && s.pcs[c].head != NULL
    ensures StateInv(RunStep(s, c, sp))
  {
    assert ClientOk(s.m, c, s.pcs[c]);
    var n, arr, head, chain := s.pcs[c].n, s.pcs[c].arr, s.pcs[c].head, s.pcs[c].chain;
    CollectReads(s.m, c, n, arr, chain);
    LocalRule(s, c, Continue(n, arr + [head], Available(s.m, head), chain));
  }

  lemma {:induction false} GrowKeepsMem(m: Mem, c: int)
    requires MemOk(m) && c != FREE
    ensures var m' := m.(recs := m.recs + [Rec(0, NULL, NULL)], owner := m.owner + [c]);
      MemOk(m') && forall d | d != c :: Spared(m, m', d)
  {
    var m' := m.(recs := m.recs + [Rec(0, NULL, NULL)], owner := m.owner + [c]);
    assert forall i | 0 <= i < |m.free| :: FreeAt(m, i) ==> FreeAt(m', i);
    assert forall i | 0 <= i < |m.all| :: AllAt(m, i) ==> AllAt(m', i);
  }

  lemma {:induction false} GrowClient(m: Mem, c: int, arr: seq<int>)
    requires MemOk(m) && c != FREE && Owns(m, c, arr) && Links(m, arr) && Ended(m, arr)
    ensures var m' := m.(recs := m.recs + [Rec(0, NULL, NULL)], owner := m.owner + [c]);
      && Owns(m', c, arr + [|m.recs|]) && Links(m', arr) && Ended(m', arr)
      && Available(m', |m.recs|) == NULL && |m.recs| !in m.all
  {
    var m' := m.(recs := m.recs + [Rec(0, NULL, NULL)], owner := m.owner + [c]);
    var held := arr + [|m.recs|];
    forall i | 0 <= i < |held|
      ensures OwnsAt(m', c, held, i)
    {
      assert i < |arr| ==> OwnsAt(m, c, arr, i);
    }
    forall i, j | 0 <= i < |held| && 0 <= j < |held|
      ensures Apart(held, i, j)
    {
      assert i < |arr| ==> OwnsAt(m, c, arr, i);
      assert j < |arr| ==> OwnsAt(m, c, arr, j);
      assert i < |arr| && j < |arr| ==> Apart(arr, i, j);
    }
    forall i | 0 <= i < |arr| - 1
      ensures LinkAt(m', arr, i)
    {
      assert LinkAt(m, arr, i) && OwnsAt(m, c, arr, i);
    }
    assert arr != [] ==> OwnsAt(m, c, arr, |arr| - 1);
    forall i | 0 <= i < |m.all|
      ensures m.all[i] != |m.recs|
    {
      assert AllAt(m, i);
    }
  }

  lemma {:induction false} CollectGrowsKeeps(s: State, c: nat, sp: bool)
    requires StateInv(s) && c < |s.pcs| && s.pcs[c].Collect? && s.pcs[c].head == NULL
    ensures StateInv(RunStep(s, c, sp))
  {
    assert ClientOk(s.m, c, s.pcs[c]);
    var s' := RunStep(s, c, sp);
    var arr := s.pcs[c].arr;
    GrowKeepsMem(s.m, c);
    GrowClient(s.m, c, arr);
    forall r | 0 <= r < |s'.m.recs|
      ensures OwnerOk(s', r)
    {
      assert r < |s.m.recs| ==> OwnerOk(s, r);
    }
    StepRule(s, s', c);
  }

  /** Memory after the link of a new record is stored and, if the head had not moved, the record published. */
  ghost function NewRecMem(m: Mem, rec: int, top: int, published: bool): Mem
    requires 0 <= rec < |m.recs|
  {
    var m1 := m.(recs := m.recs[rec := m.recs[rec].(next := top)]);
    if published then m1.(allHead := rec, all := [rec] + m.all) else m1
  }

  /** Publishing, or storing the link of a record that is not yet published. */
  lemma {:induction false} NewRecKeepsMem(m: Mem, rec: int, top: int, published: bool)
    requires MemOk(m) && 0 <= rec < |m.recs| && rec !in m.all && m.owner[rec] != FREE
    requires published ==> m.allHead == top
    ensures MemOk(NewRecMem(m, rec, top, published))
  {
    var m' := NewRecMem(m, rec, top, published);
    forall i | 0 <= i < |m.free|
      ensures FreeAt(m', i)
    {
      assert FreeAt(m, i);
    }
    forall i | 0 <= i < |m'.all|
      ensures AllAt(m', i)
    {
      assert !published ==> AllAt(m, i) && m.all[i] in m.all;
      assert published && i > 0 ==> AllAt(m, i - 1) && m.all[i - 1] in m.all;
    }
    forall i, j | 0 <= i < |m'.all| && 0 <= j < |m'.all|
      ensures Apart(m'.all, i, j)
    {
      assert !published ==> Apart(m.all, i, j);
      assert published && i > 0 && j > 0 ==> Apart(m.all, i - 1, j - 1);
    }
  }

  lemma {:induction false} NewRecKeeps(s: State, c: nat, sp: bool)
    requires StateInv(s) && c < |s.pcs| && s.pcs[c].NewRec?
    ensures StateInv(RunStep(s, c, sp))
  {
    assert ClientOk(s.m, c, s.pcs[c]);
    var s' := RunStep(s, c, sp);
    var arr, rec, top := s.pcs[c].arr, s.pcs[c].rec, s.pcs[c].top;
    assert OwnsAt(s.m, c, arr + [rec], |arr|);
    var published := s.m.allHead == top && !sp;
    assert s'.m == NewRecMem(s.m, rec, top, published);
    NewRecKeepsMem(s.m, rec, top, published);
    NewRecSpares(s.m, c, rec, top, published);
    NewRecClient(s.m, c, arr, rec, top, published);
    NewRecOwners(s, s', c, rec, top, published);
    StepRule(s, s', c);
  }

  lemma {:induction false} NewRecOwners(s: State, s': State, c: nat, rec: int, top: int, published: bool)
    requires StateInv(s) && c < |s.pcs| == |s'.pcs| && s'.pcs == s.pcs[c := s'.pcs[c]] && s.pcs[c].NewRec?
      && s.pcs[c].rec == rec
    requires 0 <= rec < |s.m.recs| && s'.m == NewRecMem(s.m, rec, top, published)
    requires !published ==> s'.pcs[c].NewRec? && s'.pcs[c].rec == rec
    ensures forall r | 0 <= r < |s'.m.recs| :: OwnerOk(s', r)
  {
    forall r | 0 <= r < |s'.m.recs|
      ensures OwnerOk(s', r)
    {
      assert OwnerOk(s, r);
    }
  }

  lemma {:induction false} NewRecSpares(m: Mem, c: int, rec: int, top: int, published: bool)
    requires |m.owner| == |m.recs| && 0 <= rec < |m.recs| && m.owner[rec] == c
    ensures forall d | d != c :: Spared(m, NewRecMem(m, rec, top, published), d)
  {
    var m' := NewRecMem(m, rec, top, published);
    forall d, r | d != c && 0 <= r < |m.recs|
      ensures SameFor(m, m', d, r)
    {
    }
  }

  lemma {:induction false} NewRecClient(m: Mem, c: int, arr: seq<int>, rec: int, top: int, published: bool)
    requires |m.owner| == |m.recs| && 0 <= rec < |m.recs|
    requires Owns(m, c, arr + [rec]) && Links(m, arr) && Ended(m, arr) && Available(m, rec) == NULL
    ensures var m' := NewRecMem(m, rec, top, published);
      Owns(m', c, arr + [rec]) && Links(m', arr) && Ended(m', arr) && Available(m', rec) == NULL
  {
    var m', held := NewRecMem(m, rec, top, published), arr + [rec];
    assert forall i | 0 <= i < |held| :: OwnsAt(m, c, held, i) ==> OwnsAt(m', c, held, i);
    assert forall i | 0 <= i < |arr| - 1 :: LinkAt(m, arr, i) ==> LinkAt(m', arr, i);
  }

  lemma {:induction false} PrefixOwned(m: Mem, c: int, arr: seq<int>, rec: int)
    requires |m.owner| == |m.recs| && Owns(m, c, arr + [rec])
    ensures Distinct(arr) && (forall i | 0 <= i < |arr| :: OwnsAt(m, c, arr, i)) && rec !in arr
    ensures 0 <= rec < |m.recs|
  {
    var held := arr + [rec];
    forall i | 0 <= i < |arr|
      ensures OwnsAt(m, c, arr, i) && arr[i] != rec
    {
      assert OwnsAt(m, c, held, i) && Apart(held, i, |arr|);
    }
    forall i, j | 0 <= i < |arr| && 0 <= j < |arr|
      ensures Apart(arr, i, j)
    {
      assert Apart(held, i, j);
    }
    assert OwnsAt(m, c, held, |arr|);
  }

  lemma {:induction false} ExtendedLinks(m: Mem, arr: seq<int>, rec: int)
    requires Links(m, arr) && (arr != [] ==> Available(m, Last(arr)) == rec)
    ensures Links(m, arr + [rec])
  {
    forall i | 0 <= i < |arr|
      ensures LinkAt(m, arr + [rec], i)
    {
      assert i < |arr| - 1 ==> LinkAt(m, arr, i);
    }
  }

  /** The array with its new last record, linked. */
  lemma {:induction false} LinkNewPc(m: Mem, n: nat, arr: seq<int>, rec: int)
    requires |arr| < n && Links(m, arr) && (arr != [] ==> Available(m, Last(arr)) == rec) && Available(m, rec) == NULL
    ensures var pc' := Continue(n, arr + [rec], NULL, []); PcOk(m, pc') && Held(pc') == arr + [rec]
  {
    ExtendedLinks(m, arr, rec);
    assert Last(arr + [rec]) == rec;
    assert Shows(m, arr + [rec], []);
  }

  lemma {:induction false} LinkNewKeeps(s: State, c: nat, sp: bool)
    requires StateInv(s) && c < |s.pcs| && s.pcs[c].LinkNew?
    ensures StateInv(RunStep(s, c, sp))
  {
    assert ClientOk(s.m, c, s.pcs[c]);
    var n, arr, rec := s.pcs[c].n, s.pcs[c].arr, s.pcs[c].rec;
    var pc' := Continue(n, arr + [rec], NULL, []);
    PrefixOwned(s.m, c, arr, rec);
    if arr == [] {
      LinkNewPc(s.m, n, arr, rec);
      LocalRule(s, c, pc');
    } else {
      var m' := SetAvailable(s.m, Last(arr), rec);
      LastLinkWrite(s.m, c, arr, rec);
      LinkNewPc(m', n, arr, rec);
      OwnWriteRule(s, State(m', s.pcs[c := pc']), c, Last(arr));
    }
  }

  // ---------- Protecting ----------

  /** Writing the protection of slot `k` touches no link and no other slot. */
  lemma {:induction false} PtrWrite(m: Mem, c: int, arr: seq<int>, k: nat, v: int)
    requires |m.owner| == |m.recs| && c != FREE && k < |arr| && Owns(m, c, arr)
    ensures var m' := SetPtr(m, arr[k], v);
      && OwnWrite(m, m', c, arr[k]) && Protected(m', arr[k]) == v
      && (forall r :: Available(m', r) == Available(m, r))
      && (forall i | 0 <= i < |arr| && i != k :: Protected(m', arr[i]) == Protected(m, arr[i]))
  {
    assert OwnsAt(m, c, arr, k);
    forall i | 0 <= i < |arr| && i != k
      ensures arr[i] != arr[k]
    {
      assert Apart(arr, i, k);
    }
  }

  lemma {:induction false} PtrWriteKeeps(m: Mem, m': Mem, n: nat, arr: seq<int>, k: nat, out: seq<int>)
    requires Whole(m, n, arr) && k < |arr|
    requires forall r :: Available(m', r) == Available(m, r)
    requires forall i | 0 <= i < |arr| && i != k :: Protected(m', arr[i]) == Protected(m, arr[i])
    ensures Whole(m', n, arr)
    ensures |out| <= k && Shows(m, arr, out) ==> Shows(m', arr, out)
    ensures Clear(m, arr, k) && Protected(m', arr[k]) == 0 ==> Clear(m', arr, k + 1)
  {
    assert forall i | 0 <= i < |arr| - 1 :: LinkAt(m, arr, i) ==> LinkAt(m', arr, i);
    if |out| <= k && Shows(m, arr, out) {
      assert forall i | 0 <= i < |out| :: ShowsAt(m, arr, out, i) ==> ShowsAt(m', arr, out, i);
    }
    if Clear(m, arr, k) && Protected(m', arr[k]) == 0 {
      forall i | 0 <= i < k + 1
        ensures ClearAt(m', arr, i)
      {
        assert i < k ==> ClearAt(m, arr, i);
      }
    }
  }

  lemma {:induction false} ProtectWriteKeeps(s: State, c: nat, sp: bool)
    requires StateInv(s) && c < |s.pcs| && (s.pcs[c].ProtectStore? || s.pcs[c].ProtectReset?)
    ensures StateInv(RunStep(s, c, sp))
  {
    assert ClientOk(s.m, c, s.pcs[c]);
    var s' := RunStep(s, c, sp);
    var n, arr, out := s.pcs[c].n, s.pcs[c].arr, s.pcs[c].out;
    var v := if s.pcs[c].ProtectStore? then s.pcs[c].p else 0;
    PtrWrite(s.m, c, arr, |out|, v);
    PtrWriteKeeps(s.m, s'.m, n, arr, |out|, out);
    OwnWriteRule(s, s', c, arr[|out|]);
  }

  /** A slot whose re-check succeeds reports the pointer it publishes. */
  lemma {:induction false} SlotDoneOk(m: Mem, n: nat, arr: seq<int>, srcs: seq<nat>, out: seq<int>, p: int)
    requires Protecting(m, n, arr, srcs, out) && Protected(m, arr[|out|]) == p
    ensures PcOk(m, SlotDone(n, arr, srcs, out + [p]))
  {
    var out' := out + [p];
    forall i | 0 <= i < |out'|
      ensures ShowsAt(m, arr, out', i)
    {
      assert i < |out| ==> ShowsAt(m, arr, out, i);
    }
  }

  lemma {:induction false} ProtectLoadKeeps(s: State, c: nat, sp: bool)
    requires StateInv(s) && c < |s.pcs| && s.pcs[c].ProtectLoad?
    ensures StateInv(RunStep(s, c, sp))
  {
    assert ClientOk(s.m, c, s.pcs[c]);
    LocalRule(s, c, Tick(s.m, c, s.pcs[c], sp).1);
  }

  lemma {:induction false} ProtectCheckKeeps(s: State, c: nat, sp: bool)
    requires StateInv(s) && c < |s.pcs| && s.pcs[c].ProtectCheck?
    ensures StateInv(RunStep(s, c, sp))
  {
    assert ClientOk(s.m, c, s.pcs[c]);
    var n, arr, srcs, out, p := s.pcs[c].n, s.pcs[c].arr, s.pcs[c].srcs, s.pcs[c].out, s.pcs[c].p;
    if SourceOf(s.m, srcs, |out|) == p {
      SlotDoneOk(s.m, n, arr, srcs, out, p);
      LocalRule(s, c, SlotDone(n, arr, srcs, out + [p]));
    } else {
      LocalRule(s, c, ProtectReset(n, arr, srcs, out, SourceOf(s.m, srcs, |out|)));
    }
  }

  lemma {:induction false} ResetKeeps(s: State, c: nat, sp: bool)
    requires StateInv(s) && c < |s.pcs| && s.pcs[c].Reset?
    ensures StateInv(RunStep(s, c, sp))
  {
    assert ClientOk(s.m, c, s.pcs[c]);
    var s' := RunStep(s, c, sp);
    var n, arr, i := s.pcs[c].n, s.pcs[c].arr, s.pcs[c].i;
    PtrWrite(s.m, c, arr, i, 0);
    ResetPc(s.m, s'.m, n, arr, i, s.pcs[c].dropping);
    OwnWriteRule(s, s', c, arr[i]);
  }

  lemma {:induction false} ResetPc(m: Mem, m': Mem, n: nat, arr: seq<int>, i: nat, dropping: bool)
    requires Whole(m, n, arr) && i < |arr| && Clear(m, arr, i)
    requires forall r :: Available(m', r) == Available(m, r)
    requires forall j | 0 <= j < |arr| && j != i :: Protected(m', arr[j]) == Protected(m, arr[j])
    requires Protected(m', arr[i]) == 0
    ensures PcOk(m', StepReset(m, n, arr, i, dropping).1)
  {
    PtrWriteKeeps(m, m', n, arr, i, []);
    assert Shows(m', arr, []);
  }

  // ---------- Releasing ----------

  lemma {:induction false} ReleaseReadKeeps(s: State, c: nat, sp: bool)
    requires StateInv(s) && c < |s.pcs| && (s.pcs[c].Check? || s.pcs[c].PushLoad?)
    ensures StateInv(RunStep(s, c, sp))
  {
    assert ClientOk(s.m, c, s.pcs[c]);
    LocalRule(s, c, RunStep(s, c, sp).pcs[c]);
  }

  lemma {:induction false} PushStoreKeeps(s: State, c: nat, sp: bool)
    requires StateInv(s) && c < |s.pcs| && s.pcs[c].PushStore?
    ensures StateInv(RunStep(s, c, sp))
  {
    assert ClientOk(s.m, c, s.pcs[c]);
    var s' := RunStep(s, c, sp);
    var arr := s.pcs[c].arr;
    LastLinkWrite(s.m, c, arr, s.pcs[c].top);
    assert forall i | 0 <= i < |arr| :: ClearAt(s.m, arr, i) ==> ClearAt(s'.m, arr, i);
    OwnWriteRule(s, s', c, Last(arr));
  }

  /** The pushed array in front of the free list is the new free list. */
  lemma {:induction false} PushKeepsMem(s: State, c: nat, sp: bool)
    requires StateInv(s) && c < |s.pcs| && s.pcs[c].PushCas? && s.m.avail == Head(s.pcs[c].top, false)
    ensures MemOk(RunStep(s, c, sp).m)
  {
    assert ClientOk(s.m, c, s.pcs[c]);
    var m, m' := s.m, RunStep(s, c, sp).m;
    var arr := s.pcs[c].arr;
    forall i | 0 <= i < |m'.free|
      ensures FreeAt(m', i)
    {
      PushedAt(s, c, sp, i);
    }
    forall i, j | 0 <= i < |m'.free| && 0 <= j < |m'.free|
      ensures Apart(m'.free, i, j)
    {
      PushedApart(s, c, sp, i, j);
    }
    forall r | 0 <= r < |m'.recs| && m'.owner[r] == FREE
      ensures r in m'.free
    {
    }
    assert forall i | 0 <= i < |m.all| :: AllAt(m, i) ==> AllAt(m', i);
  }

  lemma {:induction false} PushedAt(s: State, c: nat, sp: bool, i: int)
    requires StateInv(s) && c < |s.pcs| && s.pcs[c].PushCas? && s.m.avail == Head(s.pcs[c].top, false)
    requires 0 <= i < |s.pcs[c].arr + s.m.free|
    ensures var m' := RunStep(s, c, sp).m;
      m'.free == s.pcs[c].arr + s.m.free && |m'.owner| == |m'.recs| && FreeAt(m', i)
  {
    assert ClientOk(s.m, c, s.pcs[c]);
    var arr := s.pcs[c].arr;
    if i < |arr| {
      assert OwnsAt(s.m, c, arr, i) && ClearAt(s.m, arr, i);
      assert i < |arr| - 1 ==> LinkAt(s.m, arr, i);
    } else {
      assert FreeAt(s.m, i - |arr|);
    }
  }

  lemma {:induction false} PushedApart(s: State, c: nat, sp: bool, i: int, j: int)
    requires StateInv(s) && c < |s.pcs| && s.pcs[c].PushCas?
    requires 0 <= i < |s.pcs[c].arr + s.m.free| && 0 <= j < |s.pcs[c].arr + s.m.free|
    ensures Apart(s.pcs[c].arr + s.m.free, i, j)
  {
    assert ClientOk(s.m, c, s.pcs[c]);
    OwnedApartFromFree(s.m, c, s.pcs[c].arr, i, j);
  }

  lemma {:induction false} OwnedApartFromFree(m: Mem, c: nat, arr: seq<int>, i: int, j: int)
    requires MemOk(m) && Owns(m, c, arr) && 0 <= i < |arr + m.free| && 0 <= j < |arr + m.free|
    ensures Apart(arr + m.free, i, j)
  {
    var k := |arr|;
    if i < k && j < k {
      assert Apart(arr, i, j);
    } else if i >= k && j >= k {
      assert Apart(m.free, i - k, j - k);
    } else if i < k {
      assert OwnsAt(m, c, arr, i) && FreeAt(m, j - k);
    } else {
      assert FreeAt(m, i - k) && OwnsAt(m, c, arr, j);
    }
  }

  lemma {:induction false} PushSpares(s: State, c: nat, sp: bool, d: int)
    requires StateInv(s) && c < |s.pcs| && s.pcs[c].PushCas? && s.m.avail == Head(s.pcs[c].top, false)
    requires 0 <= d < |s.pcs| && d != c
    ensures Spared(s.m, RunStep(s, c, sp).m, d)
  {
    assert ClientOk(s.m, c, s.pcs[c]);
    var m, m' := s.m, RunStep(s, c, sp).m;
    forall r | 0 <= r < |m.recs|
      ensures SameFor(m, m', d, r)
    {
      if r in s.pcs[c].arr {
        var i :| 0 <= i < |s.pcs[c].arr| && s.pcs[c].arr[i] == r;
        assert OwnsAt(m, c, s.pcs[c].arr, i);
      }
    }
  }

  lemma {:induction false} PushOwners(s: State, c: nat, sp: bool)
    requires StateInv(s) && c < |s.pcs| && s.pcs[c].PushCas? && s.m.avail == Head(s.pcs[c].top, false)
    ensures var s' := RunStep(s, c, sp);
      |s'.m.owner| == |s'.m.recs| && Owns(s'.m, c, []) && forall r | 0 <= r < |s'.m.recs| :: OwnerOk(s', r)
  {
    assert ClientOk(s.m, c, s.pcs[c]);
    var s', arr := RunStep(s, c, sp), s.pcs[c].arr;
    forall r | 0 <= r < |s'.m.recs|
      ensures OwnerOk(s', r)
    {
      assert OwnerOk(s, r);
      if r in arr {
        var i :| 0 <= i < |arr| && arr[i] == r;
        assert OwnsAt(s.m, c, arr, i);
      }
    }
  }

  lemma {:induction false} PushWins(s: State, c: nat, sp: bool)
    requires StateInv(s) && c < |s.pcs| && s.pcs[c].PushCas? && s.m.avail == Head(s.pcs[c].top, false)
    ensures StateInv(RunStep(s, c, sp))
  {
    var s' := RunStep(s, c, sp);
    assert ClientOk(s.m, c, s.pcs[c]);
    PushKeepsMem(s, c, sp);
    forall d | 0 <= d < |s.pcs| && d != c
      ensures Spared(s.m, s'.m, d)
    {
      PushSpares(s, c, sp, d);
    }
    PushOwners(s, c, sp);
    StepRule(s, s', c);
  }

  lemma {:induction false} PushCasKeeps(s: State, c: nat, sp: bool)
    requires StateInv(s) && c < |s.pcs| && s.pcs[c].PushCas?
    ensures StateInv(RunStep(s, c, sp))
  {
    if s.m.avail == Head(s.pcs[c].top, false) {
      PushWins(s, c, sp);
    } else {
      assert ClientOk(s.m, c, s.pcs[c]);
      LocalRule(s, c, PushLoad(s.pcs[c].n, s.pcs[c].arr));
    }
  }

  // ---------- Every event ----------

  lemma {:induction false} RunKeeps(s: State, c: nat, sp: bool)
    requires StateInv(s) && c < |s.pcs|
    requires s.pcs[c].FetchOr? && !s.m.avail.locked ==> s.pcs[c].seen == s.m.avail
    ensures StateInv(RunStep(s, c, sp))
  {
    assert ClientOk(s.m, c, s.pcs[c]);
    match s.pcs[c]
    case Idle => LocalRule(s, c, Idle);
    case LoadAvail(_) => LoadAvailKeeps(s, c, sp);
    case FetchOr(_, _) => FetchOrKeeps(s, c, sp);
    case Traverse(_, _) => TraverseKeeps(s, c, sp);
    case Unlock(_, _, _) => UnlockKeeps(s, c, sp);
    case NullTail(_, _) => NullTailKeeps(s, c, sp);
    case Collect(_, _, head, _) => if head != NULL { CollectReusesKeeps(s, c, sp); }
        else { CollectGrowsKeeps(s, c, sp); }
    case NewRec(_, _, _, _) => NewRecKeeps(s, c, sp);
    case LinkNew(_, _, _) => LinkNewKeeps(s, c, sp);
    case Holding(_, _, _) => assert s.pcs[c := s.pcs[c]] == s.pcs;
    case ProtectLoad(_, _, _, _) => ProtectLoadKeeps(s, c, sp);
    case ProtectStore(_, _, _, _, _) => ProtectWriteKeeps(s, c, sp);
    case ProtectCheck(_, _, _, _, _) => ProtectCheckKeeps(s, c, sp);
    case ProtectReset(_, _, _, _, _) => ProtectWriteKeeps(s, c, sp);
    case Reset(_, _, _, _) => ResetKeeps(s, c, sp);
    case Check(_, _) => ReleaseReadKeeps(s, c, sp);
    case PushLoad(_, _) => ReleaseReadKeeps(s, c, sp);
    case PushStore(_, _, _) => PushStoreKeeps(s, c, sp);
    case PushCas(_, _, _) => PushCasKeeps(s, c, sp);
    case Panicked => assert false;
  }

  lemma {:induction false} CallKeeps(s: State, c: nat, a: Action)
    requires StateInv(s) && c < |s.pcs| && !a.Run?
    ensures StateInv(Step(s, c, a))
  {
    assert ClientOk(s.m, c, s.pcs[c]);
    var pc' := Act(s.m, c, s.pcs[c], a).1;
    if pc' == s.pcs[c] {
      assert s.pcs[c := pc'] == s.pcs;
    } else {
      assert pc'.ProtectLoad? ==> Shows(s.m, pc'.arr, []);
      assert pc'.Reset? ==> Clear(s.m, pc'.arr, 0);
      LocalRule(s, c, pc');
    }
  }

  lemma {:induction false} ChangeKeeps(s: State, j: nat, v: int)
    requires StateInv(s)
    ensures StateInv(Change(s, j, v))
  {
    var s' := Change(s, j, v);
    assert forall i | 0 <= i < |s.m.free| :: FreeAt(s.m, i) ==> FreeAt(s'.m, i);
    assert forall i | 0 <= i < |s.m.all| :: AllAt(s.m, i) ==> AllAt(s'.m, i);
    forall c | 0 <= c < |s.pcs|
      ensures ClientOk(s'.m, c, s'.pcs[c])
    {
      assert ClientOk(s.m, c, s.pcs[c]);
      SparedClient(s.m, s'.m, c, s.pcs[c]);
    }
    forall r | 0 <= r < |s.m.recs|
      ensures OwnerOk(s', r)
    {
      assert OwnerOk(s, r);
    }
  }

  /** Any event keeps the invariant unless it wins the lock bit with a stale pointer. */
  lemma {:induction false} ApplyKeeps(s: State, e: Event)
    requires StateInv(s) && LockSound(s, e)
    ensures StateInv(Apply(s, e))
  {
    match e
    case By(c, a) =>
      if c < |s.pcs| {
        if a.Run? {
          RunKeeps(s, c, a.spurious);
        } else {
          CallKeeps(s, c, a);
        }
      }
    case Write(j, v) => ChangeKeeps(s, j, v);
  }
}
