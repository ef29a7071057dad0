/**
  The arena as a step system: any number of threads allocate concurrently.  Allocation is a
  load / check / compare-exchange loop on the bump offset of a chunk that may no longer be the current
  one; growth happens under a mutex.  Each atomic access is one step.

  `grants`, `granted` and `returned` are history: the ranges won by a compare-exchange, their total size,
  and which of them were returned to a caller.
 */
module ArenaMachine {
  import opened Basics
  import opened ArenaLayout

  const UNLOCKED := -1

  /** 2^63: `Layout` keeps sizes and alignments, and the allocator keeps block lengths, within it. */
  const HALF: nat := 0x8000_0000_0000_0000

  datatype Range = Range(start: nat, size: nat, align: nat)

  datatype Chunk = Chunk(len: nat, bump: nat, grants: seq<Range>)

  /** The `i`-th range granted in chunk `c`. */
  datatype Claim = Claim(c: nat, i: nat)

  datatype Arena = Arena(
    block: nat, cap: nat,
    chunks: seq<Chunk>, current: nat, allocBytes: nat, used: nat, mutex: int,
    granted: nat, returned: seq<Claim>)

  /** `Arena::new`: one block, capacity at least a block. */
  ghost function NewArena(block: nat, cap: nat): Arena {
    Arena(block, cap, [Chunk(block, 0, [])], 0, block, 0, UNLOCKED, 0, [])
  }

  datatype Pc =
    | Idle
      // alloc_raw: about to load current_chunk, then its bump
    | LoadChunk(l: Layout)
    | LoadBump(l: Layout, c: nat)
      // alignment_check: about to load current_chunk again, for its length only
    | CheckLen(l: Layout, c: nat, bump: nat)
      // about to compare-exchange the bump of chunk c
    | Cas(l: Layout, c: nat, bump: nat, start: nat)
      // won [start, start + size) of chunk c; about to add the size to memory_used
    | Count(l: Layout, c: nat, start: nat, i: nat)
      // try_new_chunk: about to lock the mutex; the rest runs with it held
    | Lock(l: Layout)
    | LoadChunk2(l: Layout)
    | LoadBump2(l: Layout, c: nat)
    | CheckLen2(l: Layout, bump: nat)
    | CheckCap(l: Layout)
    | AddBlock(l: Layout)
    | PushChunk(l: Layout)
    | StoreChunk(l: Layout, c: nat)
    | Unlock(l: Layout, ok: bool)
      // ArenaFull: alloc_raw panics, alloc_raw_fallback returns the error
    | Full(l: Layout)

  datatype State = State(a: Arena, pcs: seq<Pc>)

  ghost function InitState(block: nat, cap: nat, threads: nat): State {
    State(NewArena(block, cap), seq(threads, _ => Idle))
  }

  // ---------- Steps ----------

  ghost predicate GoodLayout(l: Layout) {
    IsPowerOfTwo(l.align) && 1 <= l.align <= HALF
  }

  ghost function BumpOf(a: Arena, c: nat): nat {
    if c < |a.chunks| then a.chunks[c].bump else 0
  }

  /** The length of the chunk that is current now. */
  ghost function LenNow(a: Arena): nat {
    if a.current < |a.chunks| then a.chunks[a.current].len else 0
  }

  ghost function Check(a: Arena, l: Layout, bump: nat): Option<nat> {
    if GoodLayout(l) then AlignmentCheck(bump, l, LenNow(a)) else None
  }

  ghost function StepCas(a: Arena, l: Layout, c: nat, bump: nat, start: nat, spurious: bool): (Arena, Pc) {
    if c < |a.chunks| && a.chunks[c].bump == bump && !spurious then
      var chunk := a.chunks[c].(bump := start + l.size, grants := a.chunks[c].grants + [Range(start, l.size, l.align)]);
      (a.(chunks := a.chunks[c := chunk], granted := a.granted + l.size), Count(l, c, start, |a.chunks[c].grants|))
    else (a, LoadChunk(l))
  }

  ghost function Tick(a: Arena, t: int, pc: Pc, spurious: bool): (Arena, Pc) {
    match pc
    case Idle => (a, pc)
    case LoadChunk(l) => (a, LoadBump(l, a.current))
    case LoadBump(l, c) => (a, CheckLen(l, c, BumpOf(a, c)))
    case CheckLen(l, c, bump) =>
      (a, match Check(a, l, bump) case Some(start) => Cas(l, c, bump, start) case None => Lock(l))
    case Cas(l, c, bump, start) => StepCas(a, l, c, bump, start, spurious)
    case Count(l, c, start, i) => (a.(used := a.used + l.size, returned := a.returned + [Claim(c, i)]), Idle)
    case Lock(l) => if a.mutex == UNLOCKED then (a.(mutex := t), LoadChunk2(l)) else (a, pc)
    case LoadChunk2(l) => (a, LoadBump2(l, a.current))
    case LoadBump2(l, c) => (a, CheckLen2(l, BumpOf(a, c)))
    case CheckLen2(l, bump) => (a, if Check(a, l, bump).Some? then Unlock(l, true) else CheckCap(l))
    case CheckCap(l) => (a, if a.allocBytes + a.block > a.cap then Unlock(l, false) else AddBlock(l))
    case AddBlock(l) => (a.(allocBytes := a.allocBytes + a.block), PushChunk(l))
    case PushChunk(l) => (a.(chunks := a.chunks + [Chunk(a.block, 0, [])]), StoreChunk(l, |a.chunks|))
    case StoreChunk(l, c) => (a.(current := c), Unlock(l, true))
    case Unlock(l, ok) => (a.(mutex := UNLOCKED), if ok then LoadChunk(l) else Full(l))
    case Full(l) => (a, pc)
  }

  datatype Action = Call(l: Layout) | Run(spurious: bool)

  ghost function Step(s: State, t: nat, act: Action): State {
    if t >= |s.pcs| then s
    else
      match act
      case Call(l) =>
        if (s.pcs[t].Idle? || s.pcs[t].Full?) && GoodLayout(l) then s.(pcs := s.pcs[t := LoadChunk(l)]) else s
      case Run(spurious) =>
        var r := Tick(s.a, t, s.pcs[t], spurious);
        State(r.0, s.pcs[t := r.1])
  }

  ghost function Exec(s: State, schedule: seq<(nat, Action)>): State {
    if schedule == [] then s
    else
      var last := schedule[|schedule| - 1];
      Step(Exec(s, schedule[..|schedule| - 1]), last.0, last.1)
  }
}
