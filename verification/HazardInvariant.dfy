/** The invariant of the hazard-pointer domain, and the rules by which steps keep it. */
module HazardInvariant {
  import opened Lists
  import opened HazardMachine

  // ---------- Shared memory ----------

  ghost predicate FreeAt(m: Mem, i: int)
    requires 0 <= i < |m.free| && |m.owner| == |m.recs|
  {
    var r := m.free[i];
    && 0 <= r < |m.recs| && m.owner[r] == FREE && m.recs[r].ptr == 0
    && m.recs[r].available == After(m.free, i)
  }

  /** The available list is `free`: its records are unowned, unprotecting and linked in order. */
  ghost predicate FreeOk(m: Mem)
    requires |m.owner| == |m.recs|
  {
    && m.avail.ptr == After(m.free, -1) && Distinct(m.free)
    && (forall i | 0 <= i < |m.free| :: FreeAt(m, i))
    && (forall r | 0 <= r < |m.recs| && m.owner[r] == FREE :: r in m.free)
  }

  ghost predicate AllAt(m: Mem, i: int)
    requires 0 <= i < |m.all|
  {
    0 <= m.all[i] < |m.recs| && m.recs[m.all[i]].next == After(m.all, i)
  }

  /** The list of all records is `all`. */
  ghost predicate AllOk(m: Mem) {
    && m.allHead == After(m.all, -1) && Distinct(m.all)
    && (forall i | 0 <= i < |m.all| :: AllAt(m, i))
  }

  ghost predicate MemOk(m: Mem) {
    && |m.owner| == |m.recs| && FreeOk(m) && AllOk(m)
    && (m.avail.locked <==> m.holder != NULL)
  }

  // ---------- Clients ----------

  ghost predicate LinkAt(m: Mem, arr: seq<int>, i: int)
    requires 0 <= i < |arr| - 1
  {
    Available(m, arr[i]) == arr[i + 1]
  }

  /** The `available` links of the records chain them in array order. */
  ghost predicate Links(m: Mem, arr: seq<int>) {
    forall i | 0 <= i < |arr| - 1 :: LinkAt(m, arr, i)
  }

  ghost predicate Ended(m: Mem, arr: seq<int>) {
    arr != [] ==> Available(m, Last(arr)) == NULL
  }

  /** A complete array: n records, linked in order, the last link null. */
  ghost predicate Whole(m: Mem, n: nat, arr: seq<int>) {
    1 <= |arr| == n && Links(m, arr) && Ended(m, arr)
  }

  ghost predicate ShowsAt(m: Mem, arr: seq<int>, out: seq<int>, i: int)
    requires 0 <= i < |arr| && i < |out|
  {
    Protected(m, arr[i]) == out[i]
  }

  /** Every slot that has reported a pointer still publishes it. */
  ghost predicate Shows(m: Mem, arr: seq<int>, out: seq<int>) {
    |out| <= |arr| && forall i | 0 <= i < |out| :: ShowsAt(m, arr, out, i)
  }

  ghost predicate ClearAt(m: Mem, arr: seq<int>, i: int)
    requires 0 <= i < |arr|
  {
    Protected(m, arr[i]) == 0
  }

  ghost predicate Clear(m: Mem, arr: seq<int>, k: int) {
    k <= |arr| && forall i | 0 <= i < k :: ClearAt(m, arr, i)
  }

  ghost predicate Protecting(m: Mem, n: nat, arr: seq<int>, srcs: seq<nat>, out: seq<int>) {
    Whole(m, n, arr) && |srcs| == |arr| && |out| < |arr| && Shows(m, arr, out)
  }

  ghost predicate Taking(m: Mem, n: nat, taken: seq<int>) {
    1 <= |taken| <= n && |taken| <= |m.free| && taken == m.free[..|taken|]
  }

  ghost predicate PcOk(m: Mem, pc: Pc) {
    match pc
    case Idle => true
    case LoadAvail(n) => n >= 1
    case FetchOr(n, seen) => n >= 1 && (!seen.locked ==> 0 <= seen.ptr < |m.recs|)
    case Traverse(n, taken) => Taking(m, n, taken)
    case Unlock(n, taken, rest) => n >= 1 && (taken == [] || Taking(m, n, taken)) && rest == After(m.free, |taken| - 1)
    case NullTail(n, taken) => |taken| <= n && n >= 1 && Links(m, taken)
    case Collect(n, arr, head, chain) =>
      && |arr| < n && |chain| <= n
      && (if |arr| < |chain|
          then arr == chain[..|arr|] && head == chain[|arr|] != NULL && Links(m, chain) && Ended(m, chain)
          else head == NULL && Links(m, arr) && Ended(m, arr))
    case NewRec(n, arr, rec, _) =>
      |arr| < n && Links(m, arr) && Ended(m, arr) && Available(m, rec) == NULL && rec !in m.all
    case LinkNew(n, arr, rec) => |arr| < n && Links(m, arr) && Ended(m, arr) && Available(m, rec) == NULL
    case Holding(n, arr, out) => Whole(m, n, arr) && Shows(m, arr, out)
    case ProtectLoad(n, arr, srcs, out) => Protecting(m, n, arr, srcs, out)
    case ProtectStore(n, arr, srcs, out, p) => Protecting(m, n, arr, srcs, out)
    case ProtectCheck(n, arr, srcs, out, p) => Protecting(m, n, arr, srcs, out) && Protected(m, arr[|out|]) == p
    case ProtectReset(n, arr, srcs, out, p) => Protecting(m, n, arr, srcs, out)
    case Reset(n, arr, i, _) => Whole(m, n, arr) && i < |arr| && Clear(m, arr, i)
    case Check(n, arr) => Whole(m, n, arr) && Clear(m, arr, |arr|)
    case PushLoad(n, arr) => 1 <= |arr| == n && Links(m, arr) && Clear(m, arr, |arr|)
    case PushStore(n, arr, top) => 1 <= |arr| == n && Links(m, arr) && Clear(m, arr, |arr|)
    case PushCas(n, arr, top) =>
      1 <= |arr| == n && Links(m, arr) && Clear(m, arr, |arr|) && Available(m, Last(arr)) == top
    case Panicked => false
  }

  ghost predicate OwnsAt(m: Mem, c: int, held: seq<int>, i: int)
    requires 0 <= i < |held| && |m.owner| == |m.recs|
  {
    0 <= held[i] < |m.recs| && m.owner[held[i]] == c
  }

  /** `held` lists, once each, exactly the records that belong to `c`. */
  ghost predicate Owns(m: Mem, c: int, held: seq<int>)
    requires |m.owner| == |m.recs|
  {
    && (forall i | 0 <= i < |held| :: OwnsAt(m, c, held, i))
    && Distinct(held)
    && (forall r | 0 <= r < |m.recs| && m.owner[r] == c :: r in held)
  }

  ghost predicate HasLock(pc: Pc) {
    pc.Traverse? || pc.Unlock?
  }

  ghost predicate ClientOk(m: Mem, c: int, pc: Pc)
    requires |m.owner| == |m.recs|
  {
    Owns(m, c, Held(pc)) && (m.holder == c <==> HasLock(pc)) && PcOk(m, pc)
  }

  /** A record that is not in the list of all records is still being published by its owner. */
  ghost predicate PublishedOrPending(s: State, r: int)
    requires 0 <= r < |s.m.owner|
  {
    r in s.m.all || (0 <= s.m.owner[r] < |s.pcs| && s.pcs[s.m.owner[r]].NewRec? && s.pcs[s.m.owner[r]].rec == r)
  }

  ghost predicate OwnerOk(s: State, r: int)
    requires 0 <= r < |s.m.owner|
  {
    (s.m.owner[r] == FREE || 0 <= s.m.owner[r] < |s.pcs|) && PublishedOrPending(s, r)
  }

  ghost predicate StateInv(s: State) {
    && MemOk(s.m)
    && (forall c | 0 <= c < |s.pcs| :: ClientOk(s.m, c, s.pcs[c]))
    && (forall r | 0 <= r < |s.m.recs| :: OwnerOk(s, r))
    && (s.m.holder == NULL || 0 <= s.m.holder < |s.pcs|)
  }

  // ---------- Interference ----------

  /** Record `r` is no concern of client `d`, or is left alone. */
  ghost predicate SameFor(m: Mem, m': Mem, d: int, r: int)
    requires 0 <= r < |m.recs| <= |m'.recs| && |m.owner| == |m.recs| && |m'.owner| == |m'.recs|
  {
    && (m.owner[r] == d <==> m'.owner[r] == d)
    && (m.owner[r] == d ==> m'.recs[r].ptr == m.recs[r].ptr && m'.recs[r].available == m.recs[r].available
                            && (r in m'.all ==> r in m.all))
  }

  /** Memory `m'` is `m` after a step of a client other than `d`. */
  ghost predicate Spared(m: Mem, m': Mem, d: int) {
    && |m.owner| == |m.recs| <= |m'.recs| == |m'.owner|
    && (forall r | 0 <= r < |m.recs| :: SameFor(m, m', d, r))
    && (forall r | |m.recs| <= r < |m'.recs| :: m'.owner[r] != d)
    && (m'.holder == d <==> m.holder == d)
    && (m.holder == d ==> m'.free == m.free)
  }

  lemma {:induction false} SparedOwns(m: Mem, m': Mem, d: int, held: seq<int>)
    requires Spared(m, m', d) && Owns(m, d, held)
    ensures Owns(m', d, held)
  {
    forall i | 0 <= i < |held|
      ensures OwnsAt(m', d, held, i)
    {
      assert OwnsAt(m, d, held, i) && SameFor(m, m', d, held[i]);
    }
    forall r | 0 <= r < |m'.recs| && m'.owner[r] == d
      ensures r in held
    {
      assert r < |m.recs| ==> SameFor(m, m', d, r);
    }
  }

  lemma {:induction false} SparedCell(m: Mem, m': Mem, d: int, held: seq<int>, i: int)
    requires Spared(m, m', d) && Owns(m, d, held) && 0 <= i < |held|
    ensures Available(m', held[i]) == Available(m, held[i]) && Protected(m', held[i]) == Protected(m, held[i])
    ensures held[i] in m'.all ==> held[i] in m.all
  {
    assert OwnsAt(m, d, held, i) && SameFor(m, m', d, held[i]);
  }

  lemma {:induction false} SparedChain(m: Mem, m': Mem, d: int, held: seq<int>, arr: seq<int>)
    requires Spared(m, m', d) && Owns(m, d, held) && arr <= held
    ensures Links(m, arr) ==> Links(m', arr)
    ensures Ended(m, arr) ==> Ended(m', arr)
    ensures forall k | Clear(m, arr, k) :: Clear(m', arr, k)
    ensures forall out | Shows(m, arr, out) :: Shows(m', arr, out)
  {
    forall i | 0 <= i < |arr|
      ensures Available(m', arr[i]) == Available(m, arr[i]) && Protected(m', arr[i]) == Protected(m, arr[i])
    {
      SparedCell(m, m', d, held, i);
    }
    if Links(m, arr) {
      forall i | 0 <= i < |arr| - 1
        ensures LinkAt(m', arr, i)
      {
        assert LinkAt(m, arr, i);
      }
    }
    forall k | Clear(m, arr, k)
      ensures Clear(m', arr, k)
    {
      forall i | 0 <= i < k
        ensures ClearAt(m', arr, i)
      {
        assert ClearAt(m, arr, i);
      }
    }
    forall out | Shows(m, arr, out)
      ensures Shows(m', arr, out)
    {
      forall i | 0 <= i < |out|
        ensures ShowsAt(m', arr, out, i)
      {
        assert ShowsAt(m, arr, out, i);
      }
    }
  }

  /** The part of its held records that a client's links run through. */
  ghost function LinkedPart(pc: Pc): seq<int> {
    match pc
    case NewRec(_, arr, _, _) => arr
    case LinkNew(_, arr, _) => arr
    case _ => Held(pc)
  }

  lemma {:induction false} SparedClient(m: Mem, m': Mem, d: int, pc: Pc)
    requires d != NULL && Spared(m, m', d) && ClientOk(m, d, pc)
    ensures ClientOk(m', d, pc)
  {
    SparedOwns(m, m', d, Held(pc));
    SparedPc(m, m', d, pc);
  }

  /** A client that is still acquiring. */
  lemma {:induction false} SparedAcquiring(m: Mem, m': Mem, d: int, pc: Pc)
    requires d != NULL && Spared(m, m', d) && ClientOk(m, d, pc)
    requires pc.NullTail? || pc.Collect? || pc.NewRec? || pc.LinkNew?
    ensures PcOk(m', pc)
  {
    SparedChain(m, m', d, Held(pc), LinkedPart(pc));
    match pc
    case NewRec(_, arr, rec, _) => SparedCell(m, m', d, arr + [rec], |arr|);
    case LinkNew(_, arr, rec) => SparedCell(m, m', d, arr + [rec], |arr|);
    case _ =>
  }

  /** A client that uses its array. */
  lemma {:induction false} SparedUsing(m: Mem, m': Mem, d: int, pc: Pc)
    requires d != NULL && Spared(m, m', d) && ClientOk(m, d, pc)
    requires pc.Holding? || pc.ProtectLoad? || pc.ProtectStore? || pc.ProtectCheck? || pc.ProtectReset?
    ensures PcOk(m', pc)
  {
    SparedChain(m, m', d, pc.arr, pc.arr);
    if pc.ProtectCheck? {
      SparedCell(m, m', d, pc.arr, |pc.out|);
    }
  }

  /** A client that gives its array back. */
  lemma {:induction false} SparedReleasing(m: Mem, m': Mem, d: int, pc: Pc)
    requires d != NULL && Spared(m, m', d) && ClientOk(m, d, pc)
    requires pc.Reset? || pc.Check? || pc.PushLoad? || pc.PushStore? || pc.PushCas?
    ensures PcOk(m', pc)
  {
    SparedChain(m, m', d, pc.arr, pc.arr);
    if pc.PushCas? {
      SparedCell(m, m', d, pc.arr, |pc.arr| - 1);
    }
  }

  lemma {:induction false} SparedPc(m: Mem, m': Mem, d: int, pc: Pc)
    requires d != NULL && Spared(m, m', d) && ClientOk(m, d, pc)
    ensures PcOk(m', pc)
  {
    if pc.NullTail? || pc.Collect? || pc.NewRec? || pc.LinkNew? {
      SparedAcquiring(m, m', d, pc);
    } else if pc.Holding? || pc.ProtectLoad? || pc.ProtectStore? || pc.ProtectCheck? || pc.ProtectReset? {
      SparedUsing(m, m', d, pc);
    } else if pc.Reset? || pc.Check? || pc.PushLoad? || pc.PushStore? || pc.PushCas? {
      SparedReleasing(m, m', d, pc);
    }
  }

  /** What a step of client `c` must show. */
  lemma {:induction false} StepRule(s: State, s': State, c: nat)
    requires StateInv(s) && c < |s.pcs| == |s'.pcs| && s'.pcs == s.pcs[c := s'.pcs[c]]
    requires MemOk(s'.m) && |s.m.recs| <= |s'.m.recs| && ClientOk(s'.m, c, s'.pcs[c])
    requires forall d | 0 <= d < |s.pcs| && d != c :: Spared(s.m, s'.m, d)
    requires forall r | 0 <= r < |s'.m.recs| :: OwnerOk(s', r)
    requires s'.m.holder == NULL || 0 <= s'.m.holder < |s.pcs|
    ensures StateInv(s')
  {
    forall d | 0 <= d < |s'.pcs|
      ensures ClientOk(s'.m, d, s'.pcs[d])
    {
      if d != c {
        assert ClientOk(s.m, d, s.pcs[d]);
        SparedClient(s.m, s'.m, d, s.pcs[d]);
      }
    }
  }

  /** The ownership history is unchanged and the client is not publishing, so every record stays
      accounted for. */
  lemma {:induction false} SameOwners(s: State, s': State, c: nat)
    requires StateInv(s) && c < |s.pcs| == |s'.pcs| && s'.pcs == s.pcs[c := s'.pcs[c]]
    requires s'.m.owner == s.m.owner && s'.m.all == s.m.all
    requires s.pcs[c].NewRec? ==> s'.pcs[c].NewRec? && s'.pcs[c].rec == s.pcs[c].rec
    ensures forall r | 0 <= r < |s'.m.owner| :: OwnerOk(s', r)
  {
    forall r | 0 <= r < |s.m.owner|
      ensures OwnerOk(s', r)
    {
      assert OwnerOk(s, r);
    }
  }

  /** Steps that change no memory and keep what is held. */
  lemma {:induction false} LocalRule(s: State, c: nat, pc': Pc)
    requires StateInv(s) && c < |s.pcs|
    requires Held(pc') == Held(s.pcs[c]) && (HasLock(pc') <==> HasLock(s.pcs[c])) && PcOk(s.m, pc')
    requires s.pcs[c].NewRec? ==> pc'.NewRec? && pc'.rec == s.pcs[c].rec
    ensures StateInv(s.(pcs := s.pcs[c := pc']))
  {
    assert ClientOk(s.m, c, s.pcs[c]);
    var s' := s.(pcs := s.pcs[c := pc']);
    SameOwners(s, s', c);
    StepRule(s, s', c);
  }

  // ---------- Writes to a record the client owns ----------

  /** Memory differs from `m` only in the links and protection of record `r`, which `c` owns. */
  ghost predicate OwnWrite(m: Mem, m': Mem, c: int, r: int) {
    && |m.owner| == |m.recs| && 0 <= r < |m.recs| && m.owner[r] == c && c != FREE
    && |m'.recs| == |m.recs|
    && m' == m.(recs := m'.recs)
    && (forall q | 0 <= q < |m.recs| && q != r :: m'.recs[q] == m.recs[q])
    && m'.recs[r].next == m.recs[r].next
  }

  lemma {:induction false} OwnWriteKeepsMem(m: Mem, m': Mem, c: int, r: int)
    requires MemOk(m) && OwnWrite(m, m', c, r)
    ensures MemOk(m')
    ensures forall d | d != c :: Spared(m, m', d)
  {
    forall i | 0 <= i < |m.free|
      ensures FreeAt(m', i)
    {
      assert FreeAt(m, i);
    }
    forall i | 0 <= i < |m.all|
      ensures AllAt(m', i)
    {
      assert AllAt(m, i);
    }
  }

  lemma {:induction false} OwnWriteKeepsOwns(m: Mem, m': Mem, c: int, r: int, held: seq<int>)
    requires OwnWrite(m, m', c, r) && Owns(m, c, held)
    ensures Owns(m', c, held)
  {
    forall i | 0 <= i < |held|
      ensures OwnsAt(m', c, held, i)
    {
      assert OwnsAt(m, c, held, i);
    }
  }

  lemma {:induction false} OwnWriteRule(s: State, s': State, c: nat, r: int)
    requires StateInv(s) && c < |s.pcs| == |s'.pcs| && s'.pcs == s.pcs[c := s'.pcs[c]]
    requires OwnWrite(s.m, s'.m, c, r)
    requires Held(s'.pcs[c]) == Held(s.pcs[c]) && !HasLock(s'.pcs[c]) && !HasLock(s.pcs[c])
    requires !s.pcs[c].NewRec? && PcOk(s'.m, s'.pcs[c])
    ensures StateInv(s')
  {
    assert ClientOk(s.m, c, s.pcs[c]);
    OwnWriteKeepsMem(s.m, s'.m, c, r);
    OwnWriteKeepsOwns(s.m, s'.m, c, r, Held(s.pcs[c]));
    SameOwners(s, s', c);
    StepRule(s, s', c);
  }
}
