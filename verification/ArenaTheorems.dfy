/** What holds of the arena in every interleaving of any number of allocations. */
module ArenaTheorems {
  import opened Basics
  import opened ArenaLayout
  import opened ArenaMachine

  // ---------- Chunks ----------

  ghost function EndOf(r: Range): nat { r.start + r.size }

  /** Where the range after the first `i` may start: the end of range `i - 1`. */
  ghost function Below(grants: seq<Range>, i: int): nat
    requires 0 <= i <= |grants|
  {
    if i == 0 then 0 else EndOf(grants[i - 1])
  }

  /** Range `i` is aligned, starts at the first aligned offset after range `i - 1`, and ends in the chunk. */
  ghost predicate RangeOk(ch: Chunk, i: int)
    requires 0 <= i < |ch.grants|
  {
    var r := ch.grants[i];
    && 1 <= r.align && r.start % r.align == 0
    && Below(ch.grants, i) <= r.start < Below(ch.grants, i) + r.align
    && EndOf(r) <= ch.len
  }

  /** The ranges of a chunk are stacked from its base up to the bump offset. */
  ghost predicate ChunkOk(ch: Chunk) {
    && (forall i | 0 <= i < |ch.grants| :: RangeOk(ch, i))
    && Below(ch.grants, |ch.grants|) == ch.bump <= ch.len
  }

  lemma {:induction false} RangesAreStacked(ch: Chunk, i: nat, j: nat)
    requires ChunkOk(ch) && i < j < |ch.grants|
    ensures EndOf(ch.grants[i]) <= ch.grants[j].start
  {
    assert RangeOk(ch, j);
    if i < j - 1 {
      RangesAreStacked(ch, i, j - 1);
      assert RangeOk(ch, j - 1);
    }
  }

  /** A won compare-exchange stacks one more range. */
  lemma {:induction false} GrantKeepsChunk(ch: Chunk, l: Layout, start: nat)
    requires ChunkOk(ch) && ch.len < HALF && GoodLayout(l) && AlignmentCheck(ch.bump, l, ch.len) == Some(start)
    ensures ChunkOk(ch.(bump := start + l.size, grants := ch.grants + [Range(start, l.size, l.align)]))
  {
    AlignedIsLeast(ch.bump, l, 0);
    var ch' := ch.(bump := start + l.size, grants := ch.grants + [Range(start, l.size, l.align)]);
    forall i | 0 <= i < |ch'.grants|
      ensures RangeOk(ch', i)
    {
      if i < |ch.grants| {
        assert RangeOk(ch, i);
      }
    }
  }

  // ---------- Totals ----------

  ghost function SizeSum(grants: seq<Range>): nat {
    if grants == [] then 0 else SizeSum(grants[..|grants| - 1]) + grants[|grants| - 1].size
  }

  ghost function PaddingSum(grants: seq<Range>): int {
    if grants == [] then 0
    else PaddingSum(grants[..|grants| - 1]) + grants[|grants| - 1].start - Below(grants, |grants| - 1)
  }

  lemma {:induction false} BumpIsSizesPlusPadding(grants: seq<Range>)
    ensures Below(grants, |grants|) == SizeSum(grants) + PaddingSum(grants)
  {
    if grants != [] {
      BumpIsSizesPlusPadding(grants[..|grants| - 1]);
    }
  }

  ghost function TotalSize(chunks: seq<Chunk>): nat {
    if chunks == [] then 0 else TotalSize(chunks[..|chunks| - 1]) + SizeSum(chunks[|chunks| - 1].grants)
  }

  lemma {:induction false} TotalUpdate(chunks: seq<Chunk>, c: nat, ch: Chunk)
    requires c < |chunks|
    ensures TotalSize(chunks[c := ch]) + SizeSum(chunks[c].grants) == TotalSize(chunks) + SizeSum(ch.grants)
  {
    var last := |chunks| - 1;
    if c == last {
      assert chunks[c := ch][..last] == chunks[..last];
    } else {
      assert chunks[c := ch][..last] == chunks[..last][c := ch];
      TotalUpdate(chunks[..last], c, ch);
    }
  }

  /** Won by a compare-exchange but not yet added to `memory_used`. */
  ghost function Pending(pc: Pc): nat {
    if pc.Count? then pc.l.size else 0
  }

  ghost function PendingSum(pcs: seq<Pc>): nat {
    if pcs == [] then 0 else PendingSum(pcs[..|pcs| - 1]) + Pending(pcs[|pcs| - 1])
  }

  lemma {:induction false} PendingUpdate(pcs: seq<Pc>, t: nat, pc: Pc)
    requires t < |pcs|
    ensures PendingSum(pcs[t := pc]) + Pending(pcs[t]) == PendingSum(pcs) + Pending(pc)
  {
    var last := |pcs| - 1;
    if t == last {
      assert pcs[t := pc][..last] == pcs[..last];
    } else {
      assert pcs[t := pc][..last] == pcs[..last][t := pc];
      PendingUpdate(pcs[..last], t, pc);
    }
  }

  lemma {:induction false} PendingZero(pcs: seq<Pc>)
    requires forall t | 0 <= t < |pcs| :: pcs[t].Idle?
    ensures PendingSum(pcs) == 0
  {
    if pcs != [] {
      PendingZero(pcs[..|pcs| - 1]);
    }
  }

  // ---------- Invariant ----------

  ghost predicate HoldsMutex(pc: Pc) {
    || pc.LoadChunk2? || pc.LoadBump2? || pc.CheckLen2? || pc.CheckCap?
    || pc.AddBlock? || pc.PushChunk? || pc.StoreChunk? || pc.Unlock?
  }

  ghost predicate PcOk(a: Arena, pc: Pc) {
    && (!pc.Idle? ==> GoodLayout(pc.l))
    && match pc
       case LoadBump(_, c) => c < |a.chunks|
       case CheckLen(_, c, bump) => c < |a.chunks| && bump <= a.block
       case Cas(l, c, bump, start) => c < |a.chunks| && AlignmentCheck(bump, l, a.block) == Some(start)
       case Count(l, c, start, i) =>
         && c < |a.chunks| && i < |a.chunks[c].grants|
         && a.chunks[c].grants[i] == Range(start, l.size, l.align)
       case LoadBump2(_, c) => c < |a.chunks|
       case AddBlock(_) => a.allocBytes + a.block <= a.cap
       case StoreChunk(_, c) => c < |a.chunks|
       case _ => true
  }

  ghost predicate ThreadOk(a: Arena, t: int, pc: Pc) {
    PcOk(a, pc) && (a.mutex == t <==> HoldsMutex(pc))
  }

  /** Blocks accounted for in `allocated_bytes` but not yet in the chunk list. */
  ghost function Announced(s: State): nat {
    if 0 <= s.a.mutex < |s.pcs| && s.pcs[s.a.mutex].PushChunk? then 1 else 0
  }

  /** The bytes of `n` blocks. */
  ghost function Blocks(n: nat, block: nat): nat {
    if n == 0 then 0 else Blocks(n - 1, block) + block
  }

  lemma {:induction false} BlocksIsProduct(n: nat, block: nat)
    ensures Blocks(n, block) == n * block
  {
    if n > 0 {
      BlocksIsProduct(n - 1, block);
      assert n * block == (n - 1) * block + block;
    }
  }

  ghost predicate EveryChunkOk(a: Arena) {
    forall c | 0 <= c < |a.chunks| :: ChunkOk(a.chunks[c]) && a.chunks[c].len == a.block
  }

  ghost predicate StateInv(s: State) {
    var a := s.a;
    && 0 < a.block < HALF && a.current < |a.chunks| && EveryChunkOk(a)
    && a.allocBytes == Blocks(|a.chunks| + Announced(s), a.block) <= a.cap
    && a.granted == TotalSize(a.chunks) && a.used + PendingSum(s.pcs) == a.granted
    && (a.mutex == UNLOCKED || 0 <= a.mutex < |s.pcs|)
    && EveryThreadOk(s)
  }

  lemma {:induction false} InitInv(block: nat, cap: nat, threads: nat)
    requires 0 < block < HALF && block <= cap
    ensures StateInv(InitState(block, cap, threads))
  {
    var s := InitState(block, cap, threads);
    PendingZero(s.pcs);
    assert ChunkOk(s.a.chunks[0]);
    assert TotalSize(s.a.chunks) == 0 by { assert s.a.chunks[..0] == []; }
  }

  // ---------- Steps ----------

  /** Another thread's view of a step: chunks are kept, grants grow. */
  ghost predicate Grows(a: Arena, a': Arena) {
    && a'.block == a.block && a'.cap == a.cap && |a.chunks| <= |a'.chunks|
    && (forall c | 0 <= c < |a.chunks| :: a.chunks[c].grants <= a'.chunks[c].grants)
  }

  lemma {:induction false} OtherThread(a: Arena, a': Arena, t: int, pc: Pc)
    requires ThreadOk(a, t, pc) && Grows(a, a') && (a'.mutex == t <==> a.mutex == t)
    requires a.mutex == t ==> a'.allocBytes == a.allocBytes
    ensures ThreadOk(a', t, pc)
  {
    if pc.Count? {
      assert a.chunks[pc.c].grants <= a'.chunks[pc.c].grants;
    }
  }

  ghost predicate EveryThreadOk(s: State) {
    forall t | 0 <= t < |s.pcs| :: ThreadOk(s.a, t, s.pcs[t])
  }

  /** A step that leaves its own thread in order leaves the others in order too. */
  lemma {:induction false} ThreadsKept(s: State, s': State, t: nat)
    requires EveryThreadOk(s) && t < |s.pcs| && Grows(s.a, s'.a)
    requires |s'.pcs| == |s.pcs| && s'.pcs == s.pcs[t := s'.pcs[t]] && ThreadOk(s'.a, t, s'.pcs[t])
    requires s'.a.mutex == s.a.mutex || (s.a.mutex in {UNLOCKED, t} && s'.a.mutex in {UNLOCKED, t})
    requires s'.a.allocBytes == s.a.allocBytes || s.a.mutex == t
    ensures EveryThreadOk(s')
  {
    forall u | 0 <= u < |s'.pcs|
      ensures ThreadOk(s'.a, u, s'.pcs[u])
    {
      assert ThreadOk(s.a, u, s.pcs[u]);
      if u != t {
        OtherThread(s.a, s'.a, u, s.pcs[u]);
      }
    }
  }

  /** A step that changes neither chunks nor totals. */
  lemma {:induction false} LocalStep(s: State, t: nat, pc': Pc)
    requires StateInv(s) && t < |s.pcs| && PcOk(s.a, pc') && (HoldsMutex(pc') <==> HoldsMutex(s.pcs[t]))
    requires Pending(pc') == Pending(s.pcs[t]) && (pc'.PushChunk? <==> s.pcs[t].PushChunk?)
    ensures StateInv(s.(pcs := s.pcs[t := pc']))
  {
    var s' := s.(pcs := s.pcs[t := pc']);
    assert ThreadOk(s.a, t, s.pcs[t]);
    PendingUpdate(s.pcs, t, pc');
    ThreadsKept(s, s', t);
  }

  ghost function RunStep(s: State, t: nat, spurious: bool): State {
    Step(s, t, Run(spurious))
  }

  lemma {:induction false} CasKeeps(s: State, t: nat, sp: bool)
    requires StateInv(s) && t < |s.pcs| && s.pcs[t].Cas?
    ensures StateInv(RunStep(s, t, sp))
  {
    assert ThreadOk(s.a, t, s.pcs[t]);
    var l, c, bump, start := s.pcs[t].l, s.pcs[t].c, s.pcs[t].bump, s.pcs[t].start;
    if s.a.chunks[c].bump == bump && !sp {
      CasWins(s, t, sp);
    } else {
      LocalStep(s, t, LoadChunk(l));
    }
  }

  /** The arena after a won compare-exchange: one more range, its size added to the total. */
  lemma {:induction false} WinArena(a: Arena, l: Layout, c: nat, start: nat)
    requires a.block < HALF && EveryChunkOk(a) && c < |a.chunks| && GoodLayout(l)
    requires AlignmentCheck(a.chunks[c].bump, l, a.block) == Some(start)
    ensures var a' := StepCas(a, l, c, a.chunks[c].bump, start, false).0;
      EveryChunkOk(a') && TotalSize(a'.chunks) == TotalSize(a.chunks) + l.size && Grows(a, a')
  {
    var a' := StepCas(a, l, c, a.chunks[c].bump, start, false).0;
    var ch, ch' := a.chunks[c], a'.chunks[c];
    assert ChunkOk(ch) && ch.len == a.block;
    GrantKeepsChunk(ch, l, start);
    TotalUpdate(a.chunks, c, ch');
    assert ch'.grants[..|ch.grants|] == ch.grants;
  }

  lemma {:induction false} CasWins(s: State, t: nat, sp: bool)
    requires StateInv(s) && t < |s.pcs| && s.pcs[t].Cas? && !sp && s.pcs[t].c < |s.a.chunks|
    requires s.a.chunks[s.pcs[t].c].bump == s.pcs[t].bump
    ensures StateInv(RunStep(s, t, sp))
  {
    assert ThreadOk(s.a, t, s.pcs[t]);
    var s' := RunStep(s, t, sp);
    var l, c, start := s.pcs[t].l, s.pcs[t].c, s.pcs[t].start;
    WinArena(s.a, l, c, start);
    WinEffect(s, t, l, c, start);
    PendingUpdate(s.pcs, t, s'.pcs[t]);
    ThreadsKept(s, s', t);
  }

  /** What a won compare-exchange leaves alone. */
  lemma {:induction false} WinEffect(s: State, t: nat, l: Layout, c: nat, start: nat)
    requires t < |s.pcs| && c < |s.a.chunks| && s.pcs[t] == Cas(l, c, s.a.chunks[c].bump, start)
    requires ThreadOk(s.a, t, s.pcs[t])
    ensures var s' := RunStep(s, t, false);
      && s'.a == StepCas(s.a, l, c, s.a.chunks[c].bump, start, false).0
      && s'.pcs == s.pcs[t := Count(l, c, start, |s.a.chunks[c].grants|)]
      && |s'.a.chunks| == |s.a.chunks| && Announced(s') == Announced(s) && ThreadOk(s'.a, t, s'.pcs[t])
      && s'.a == s.a.(chunks := s'.a.chunks, granted := s.a.granted + l.size)
  {
    OwnRange(s.a, l, c, start);
  }

  lemma {:induction false} OwnRange(a: Arena, l: Layout, c: nat, start: nat)
    requires c < |a.chunks| && GoodLayout(l)
    ensures var (a', pc) := StepCas(a, l, c, a.chunks[c].bump, start, false); PcOk(a', pc)
  {
  }

  lemma {:induction false} CountKeeps(s: State, t: nat, sp: bool)
    requires StateInv(s) && t < |s.pcs| && s.pcs[t].Count?
    ensures StateInv(RunStep(s, t, sp))
  {
    var s' := RunStep(s, t, sp);
    assert ThreadOk(s.a, t, s.pcs[t]);
    PendingUpdate(s.pcs, t, Idle);
    ThreadsKept(s, s', t);
  }

  /** Locking and unlocking. */
  lemma {:induction false} MutexStep(s: State, t: nat, sp: bool)
    requires StateInv(s) && t < |s.pcs| && (s.pcs[t].Unlock? || (s.pcs[t].Lock? && s.a.mutex == UNLOCKED))
    ensures StateInv(RunStep(s, t, sp))
  {
    var s' := RunStep(s, t, sp);
    assert ThreadOk(s.a, t, s.pcs[t]);
    assert Announced(s) == 0 && Announced(s') == 0;
    PendingUpdate(s.pcs, t, s'.pcs[t]);
    ThreadsKept(s, s', t);
  }

  /** Installing the new chunk. */
  lemma {:induction false} StoreChunkKeeps(s: State, t: nat, sp: bool)
    requires StateInv(s) && t < |s.pcs| && s.pcs[t].StoreChunk?
    ensures StateInv(RunStep(s, t, sp))
  {
    var s' := RunStep(s, t, sp);
    assert ThreadOk(s.a, t, s.pcs[t]);
    PendingUpdate(s.pcs, t, s'.pcs[t]);
    ThreadsKept(s, s', t);
  }

  /** Accounting for a block before it is in the list. */
  lemma {:induction false} AddBlockKeeps(s: State, t: nat, sp: bool)
    requires StateInv(s) && t < |s.pcs| && s.pcs[t].AddBlock?
    ensures StateInv(RunStep(s, t, sp))
  {
    var s' := RunStep(s, t, sp);
    assert ThreadOk(s.a, t, s.pcs[t]);
    assert Announced(s) == 0 && Announced(s') == 1;
    PendingUpdate(s.pcs, t, s'.pcs[t]);
    ThreadsKept(s, s', t);
  }

  lemma {:induction false} PushKeeps(s: State, t: nat, sp: bool)
    requires StateInv(s) && t < |s.pcs| && s.pcs[t].PushChunk?
    ensures StateInv(RunStep(s, t, sp))
  {
    var s' := RunStep(s, t, sp);
    assert ThreadOk(s.a, t, s.pcs[t]);
    PendingUpdate(s.pcs, t, s'.pcs[t]);
    assert ChunkOk(Chunk(s.a.block, 0, []));
    assert s'.a.chunks[..|s.a.chunks|] == s.a.chunks;
    ThreadsKept(s, s', t);
  }

  /** The length that a stale check reads is the block size, whichever chunk is current by then. */
  lemma {:induction false} LocalTick(s: State, t: nat, sp: bool)
    requires StateInv(s) && t < |s.pcs|
    requires s.pcs[t].Idle? || s.pcs[t].LoadChunk? || s.pcs[t].LoadBump? || s.pcs[t].CheckLen? || s.pcs[t].LoadChunk2?
             || s.pcs[t].LoadBump2? || s.pcs[t].CheckLen2? || s.pcs[t].CheckCap? || s.pcs[t].Full?
             || (s.pcs[t].Lock? && s.a.mutex != UNLOCKED)
    ensures StateInv(RunStep(s, t, sp))
  {
    assert ThreadOk(s.a, t, s.pcs[t]);
    var pc' := Tick(s.a, t, s.pcs[t], sp).1;
    assert LenNow(s.a) == s.a.block;
    if s.pcs[t].LoadBump? {
      assert ChunkOk(s.a.chunks[s.pcs[t].c]);
    }
    LocalStep(s, t, pc');
  }

  /** Every step keeps the invariant. */
  lemma {:induction false} StepKeeps(s: State, t: nat, act: Action)
    requires StateInv(s)
    ensures StateInv(Step(s, t, act))
  {
    if t < |s.pcs| {
      assert ThreadOk(s.a, t, s.pcs[t]);
      match act
      case Call(l) =>
        if (s.pcs[t].Idle? || s.pcs[t].Full?) && GoodLayout(l) {
          LocalStep(s, t, LoadChunk(l));
        }
      case Run(sp) =>
        match s.pcs[t]
        case Cas(_, _, _, _) => CasKeeps(s, t, sp);
        case Count(_, _, _, _) => CountKeeps(s, t, sp);
        case PushChunk(_) => PushKeeps(s, t, sp);
        case AddBlock(_) => AddBlockKeeps(s, t, sp);
        case StoreChunk(_, _) => StoreChunkKeeps(s, t, sp);
        case Unlock(_, _) => MutexStep(s, t, sp);
        case Lock(_) => if s.a.mutex == UNLOCKED { MutexStep(s, t, sp); } else { LocalTick(s, t, sp); }
        case _ => LocalTick(s, t, sp);
    }
  }

  lemma {:induction false} ExecKeeps(block: nat, cap: nat, threads: nat, schedule: seq<(nat, Action)>)
    requires 0 < block < HALF && block <= cap
    ensures StateInv(Exec(InitState(block, cap, threads), schedule))
  {
    if schedule == [] {
      InitInv(block, cap, threads);
    } else {
      var before, last := schedule[..|schedule| - 1], schedule[|schedule| - 1];
      ExecKeeps(block, cap, threads, before);
      StepKeeps(Exec(InitState(block, cap, threads), before), last.0, last.1);
    }
  }

  // ---------- Theorems ----------

  /** In every interleaving, the ranges granted in a chunk are aligned, inside the chunk, and pairwise
      disjoint, even when bump and length were read from different chunks. */
  lemma {:induction false} GrantsAreDisjoint(block: nat, cap: nat, threads: nat, schedule: seq<(nat, Action)>,
                                             c: nat, i: nat, j: nat)
    requires 0 < block < HALF && block <= cap
    requires var a := Exec(InitState(block, cap, threads), schedule).a;
      c < |a.chunks| && i < |a.chunks[c].grants| && j < |a.chunks[c].grants|
    ensures var ch := Exec(InitState(block, cap, threads), schedule).a.chunks[c];
      && EndOf(ch.grants[i]) <= ch.len && ch.grants[i].align >= 1 && ch.grants[i].start % ch.grants[i].align == 0
      && (i != j ==> EndOf(ch.grants[i]) <= ch.grants[j].start || EndOf(ch.grants[j]) <= ch.grants[i].start)
  {
    ExecKeeps(block, cap, threads, schedule);
    var ch := Exec(InitState(block, cap, threads), schedule).a.chunks[c];
    assert ChunkOk(ch) && RangeOk(ch, i);
    if i < j {
      RangesAreStacked(ch, i, j);
    } else if j < i {
      RangesAreStacked(ch, j, i);
    }
  }

  /** In every interleaving, the ranges that allocations returned are aligned, each inside its own chunk, and
      pairwise disjoint: no two returns are of the same granted range. */
  lemma {:induction false} ReturnedRangesAreDisjoint(block: nat, cap: nat, threads: nat, schedule: seq<(nat,
                                                     Action)>, j: nat, k: nat)
    requires 0 < block < HALF && block <= cap
    requires var a := Exec(InitState(block, cap, threads), schedule).a; j < |a.returned| && k < |a.returned|
    ensures var a := Exec(InitState(block, cap, threads), schedule).a; var x, y := a.returned[j], a.returned[k];
      && ClaimOk(a, x) && ClaimOk(a, y)
      && var r, q := a.chunks[x.c].grants[x.i], a.chunks[y.c].grants[y.i];
      && EndOf(r) <= a.chunks[x.c].len == block && r.align >= 1 && r.start % r.align == 0
      && (j != k && x.c == y.c ==> EndOf(r) <= q.start || EndOf(q) <= r.start)
  {
    ExecKeeps(block, cap, threads, schedule);
    ClaimsKept(block, cap, threads, schedule);
    var a := Exec(InitState(block, cap, threads), schedule).a;
    var x, y := a.returned[j], a.returned[k];
    assert ClaimOk(a, x) && ClaimOk(a, y) && (j != k ==> x != y);
    var ch := a.chunks[x.c];
    assert ChunkOk(ch) && RangeOk(ch, x.i);
    if x.c == y.c {
      GrantsAreDisjoint(block, cap, threads, schedule, x.c, x.i, y.i);
    }
    BlockIsKept(block, cap, threads, schedule);
  }

  lemma {:induction false} BlockIsKept(block: nat, cap: nat, threads: nat, schedule: seq<(nat, Action)>)
    ensures Exec(InitState(block, cap, threads), schedule).a.block == block
  {
    if schedule != [] {
      BlockIsKept(block, cap, threads, schedule[..|schedule| - 1]);
    }
  }

  // ---------- Claims ----------

  ghost predicate ClaimOk(a: Arena, x: Claim) {
    x.c < |a.chunks| && x.i < |a.chunks[x.c].grants|
  }

  ghost predicate Pends(pc: Pc, x: Claim) {
    pc.Count? && Claim(pc.c, pc.i) == x
  }

  /** A range is claimed once: by one return, or by one thread about to return it. */
  ghost predicate ClaimsInv(s: State) {
    && (forall k | 0 <= k < |s.a.returned| :: ClaimOk(s.a, s.a.returned[k]))
    && (forall j, k | 0 <= j < k < |s.a.returned| :: s.a.returned[j] != s.a.returned[k])
    && (forall t, x | 0 <= t < |s.pcs| && Pends(s.pcs[t], x) :: ClaimOk(s.a, x) && x !in s.a.returned)
    && (forall t, u, x | 0 <= t < u < |s.pcs| && Pends(s.pcs[t], x) :: !Pends(s.pcs[u], x))
  }

  lemma {:induction false} WinKeepsClaims(s: State, t: nat)
    requires ClaimsInv(s) && t < |s.pcs| && s.pcs[t].Cas? && s.pcs[t].c < |s.a.chunks|
    requires s.a.chunks[s.pcs[t].c].bump == s.pcs[t].bump
    ensures ClaimsInv(RunStep(s, t, false))
  {
    var s' := RunStep(s, t, false);
    var c := s.pcs[t].c;
    var next := Claim(c, |s.a.chunks[c].grants|);
    assert !ClaimOk(s.a, next) && ClaimOk(s'.a, next);
    assert forall x | ClaimOk(s.a, x) :: ClaimOk(s'.a, x);
    assert forall x | Pends(s'.pcs[t], x) :: x == next;
  }

  lemma {:induction false} CountKeepsClaims(s: State, t: nat, sp: bool)
    requires ClaimsInv(s) && t < |s.pcs| && s.pcs[t].Count?
    ensures ClaimsInv(RunStep(s, t, sp))
  {
    var s' := RunStep(s, t, sp);
    var mine := Claim(s.pcs[t].c, s.pcs[t].i);
    assert Pends(s.pcs[t], mine);
    assert forall x | ClaimOk(s.a, x) :: ClaimOk(s'.a, x);
    forall u, x | 0 <= u < |s'.pcs| && Pends(s'.pcs[u], x)
      ensures ClaimOk(s'.a, x) && x !in s'.a.returned
    {
      OtherPends(s, t, u, x);
    }
    forall j, k | 0 <= j < k < |s'.a.returned|
      ensures s'.a.returned[j] != s'.a.returned[k]
    {
      assert k == |s.a.returned| ==> s'.a.returned[j] in s.a.returned;
    }
  }

  lemma {:induction false} OtherPends(s: State, t: nat, u: nat, x: Claim)
    requires ClaimsInv(s) && t < |s.pcs| && u < |s.pcs| && s.pcs[t].Count? && t != u && Pends(s.pcs[u], x)
    ensures ClaimOk(s.a, x) && x !in s.a.returned && x != Claim(s.pcs[t].c, s.pcs[t].i)
  {
    assert Pends(s.pcs[t], Claim(s.pcs[t].c, s.pcs[t].i));
    assert u < t || t < u;
  }

  /** Any other step claims nothing and returns nothing. */
  lemma {:induction false} ClaimsSame(s: State, s': State, t: nat)
    requires ClaimsInv(s) && t < |s.pcs| && s'.a.returned == s.a.returned && Grows(s.a, s'.a)
    requires |s'.pcs| == |s.pcs| && s'.pcs == s.pcs[t := s'.pcs[t]] && !s'.pcs[t].Count?
    ensures ClaimsInv(s')
  {
    forall x | ClaimOk(s.a, x)
      ensures ClaimOk(s'.a, x)
    {
      assert s.a.chunks[x.c].grants <= s'.a.chunks[x.c].grants;
    }
  }

  lemma {:induction false} StepKeepsClaims(s: State, t: nat, act: Action)
    requires ClaimsInv(s)
    ensures ClaimsInv(Step(s, t, act))
  {
    if t < |s.pcs| {
      var s' := Step(s, t, act);
      if act.Call? {
        if s' != s {
          ClaimsSame(s, s', t);
        }
      } else if s.pcs[t].Count? {
        CountKeepsClaims(s, t, act.spurious);
      } else if s'.pcs[t].Count? {
        WinKeepsClaims(s, t);
      } else {
        ClaimsSame(s, s', t);
      }
    }
  }

  lemma {:induction false} ClaimsKept(block: nat, cap: nat, threads: nat, schedule: seq<(nat, Action)>)
    ensures ClaimsInv(Exec(InitState(block, cap, threads), schedule))
  {
    if schedule != [] {
      var before, last := schedule[..|schedule| - 1], schedule[|schedule| - 1];
      ClaimsKept(block, cap, threads, before);
      StepKeepsClaims(Exec(InitState(block, cap, threads), before), last.0, last.1);
    }
  }

  // ---------- Conservation ----------

  /** Conservation: allocated bytes are chunks times block size and within capacity whenever the mutex
      is free; `memory_used` plus what is won but not counted is everything granted; and the bump of a
      chunk is its granted sizes plus padding. */
  lemma {:induction false} BytesAreConserved(block: nat, cap: nat, threads: nat, schedule: seq<(nat, Action)>)
    requires 0 < block < HALF && block <= cap
    ensures var s := Exec(InitState(block, cap, threads), schedule); var a := s.a;
      && (a.mutex == UNLOCKED ==> a.allocBytes == |a.chunks| * a.block) && a.allocBytes <= a.cap
      && a.used + PendingSum(s.pcs) == TotalSize(a.chunks)
      && (forall c | 0 <= c < |a.chunks| ::
            a.chunks[c].bump == SizeSum(a.chunks[c].grants) + PaddingSum(a.chunks[c].grants))
  {
    ExecKeeps(block, cap, threads, schedule);
    var a := Exec(InitState(block, cap, threads), schedule).a;
    BlocksIsProduct(|a.chunks|, a.block);
    forall c | 0 <= c < |a.chunks|
      ensures a.chunks[c].bump == SizeSum(a.chunks[c].grants) + PaddingSum(a.chunks[c].grants)
    {
      assert ChunkOk(a.chunks[c]);
      BumpIsSizesPlusPadding(a.chunks[c].grants);
    }
  }
}
