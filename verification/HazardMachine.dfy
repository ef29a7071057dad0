/**
  The hazard-pointer domain as a step system.  A client is one `HzdPtrArray` handle: it acquires N
  records, protects sources with them, resets them and releases them; any number of clients
  interleave arbitrarily, one atomic access per step, while sources change at will.

  `free`, `all`, `owner` and `holder` are history variables: no step reads them to decide.
 */
module HazardMachine {
  import opened Lists

  const FREE := -1

  /** `HzdPtrRec`; a protected address is an integer and 0 is the null pointer. */
  datatype Rec = Rec(ptr: int, next: int, available: int)

  /** The `avail_head` word: a record pointer and its lock bit. */
  datatype Head = Head(ptr: int, locked: bool)

  datatype Mem = Mem(
    recs: seq<Rec>,
    allHead: int,
    avail: Head,
    src: seq<int>,
    // history: the free records in list order, all published records in list order, the client that
    // owns each record (or FREE), and the client that holds the lock bit (or NULL)
    free: seq<int>,
    all: seq<int>,
    owner: seq<int>,
    holder: int)

  datatype Pc =
    | Idle
      // try_acquire_available: about to load avail_head
    | LoadAvail(n: nat)
      // about to fetch_or the lock bit
    | FetchOr(n: nat, seen: Head)
      // holding the lock: about to load the link of the last record taken
    | Traverse(n: nat, taken: seq<int>)
      // about to store the rest of the list, which also unlocks it
    | Unlock(n: nat, taken: seq<int>, rest: int)
      // about to cut the link of the last record taken
    | NullTail(n: nat, taken: seq<int>)
      // acquire_many: about to load the link of `head`, or to allocate when it is null; the links of
      // `chain` still to be read start at position |arr|
    | Collect(n: nat, arr: seq<int>, head: int, chain: seq<int>)
      // acquire_new_rec: about to compare-exchange the head of all records
    | NewRec(n: nat, arr: seq<int>, rec: int, top: int)
      // about to link the previous record of the array to the new one
    | LinkNew(n: nat, arr: seq<int>, rec: int)
      // the array is in use; out[i] is what slot i protects (0: nothing), empty after a reset
    | Holding(n: nat, arr: seq<int>, out: seq<int>)
      // protect_ptr for slot |out|: about to load the source, publish, re-check, retract
    | ProtectLoad(n: nat, arr: seq<int>, srcs: seq<nat>, out: seq<int>)
    | ProtectStore(n: nat, arr: seq<int>, srcs: seq<nat>, out: seq<int>, p: int)
    | ProtectCheck(n: nat, arr: seq<int>, srcs: seq<nat>, out: seq<int>, p: int)
    | ProtectReset(n: nat, arr: seq<int>, srcs: seq<nat>, out: seq<int>, p: int)
      // reset_protection of slot i, on its own or as part of drop
    | Reset(n: nat, arr: seq<int>, i: nat, dropping: bool)
      // release_many: about to assert that the last link is null
    | Check(n: nat, arr: seq<int>)
      // push_available: about to load avail_head, store the last link, compare-exchange
    | PushLoad(n: nat, arr: seq<int>)
    | PushStore(n: nat, arr: seq<int>, top: int)
    | PushCas(n: nat, arr: seq<int>, top: int)
      // a failed assertion or a dereference of a tagged pointer
    | Panicked

  datatype State = State(m: Mem, pcs: seq<Pc>)

  ghost function InitState(clients: nat, sources: seq<int>): State {
    State(Mem([], NULL, Head(NULL, false), sources, [], [], [], NULL), seq(clients, _ => Idle))
  }

  // ---------- Memory accesses ----------

  ghost function Available(m: Mem, r: int): int {
    if 0 <= r < |m.recs| then m.recs[r].available else NULL
  }

  ghost function Protected(m: Mem, r: int): int {
    if 0 <= r < |m.recs| then m.recs[r].ptr else 0
  }

  ghost function SetAvailable(m: Mem, r: int, v: int): Mem {
    if 0 <= r < |m.recs| then m.(recs := m.recs[r := m.recs[r].(available := v)]) else m
  }

  ghost function SetPtr(m: Mem, r: int, v: int): Mem {
    if 0 <= r < |m.recs| then m.(recs := m.recs[r := m.recs[r].(ptr := v)]) else m
  }

  ghost function Source(m: Mem, j: nat): int {
    if j < |m.src| then m.src[j] else 0
  }

  /** Gives the records of `rs` to `who` in the ownership history. */
  ghost function GiveTo(owner: seq<int>, rs: seq<int>, who: int): (o: seq<int>)
    ensures |o| == |owner|
    ensures forall r | 0 <= r < |owner| :: o[r] == if r in rs then who else owner[r]
  {
    seq(|owner|, r requires 0 <= r < |owner| => if r in rs then who else owner[r])
  }

  // ---------- Steps ----------

  /** The next array element is in `arr`; go on until there are `n` of them. */
  ghost function Continue(n: nat, arr: seq<int>, head: int, chain: seq<int>): Pc {
    if |arr| >= n then Holding(n, arr, []) else Collect(n, arr, head, chain)
  }

  ghost function StepFetchOr(m: Mem, c: int, n: nat, seen: Head): (Mem, Pc) {
    var m' := m.(avail := m.avail.(locked := true), holder := if m.avail.locked then m.holder else c);
    if m.avail.locked then (m', LoadAvail(n))
    else if seen.locked then (m', Panicked)
    else (m', Traverse(n, [seen.ptr]))
  }

  ghost function StepTraverse(m: Mem, n: nat, taken: seq<int>): (Mem, Pc) {
    var next := Available(m, Last(taken));
    if next != NULL && |taken| < n then (m, Traverse(n, taken + [next])) else (m, Unlock(n, taken, next))
  }

  ghost function StepUnlock(m: Mem, c: int, n: nat, taken: seq<int>, rest: int): (Mem, Pc) {
    var free' := if |taken| <= |m.free| then m.free[|taken|..] else [];
    (m.(avail := Head(rest, false), holder := NULL, free := free', owner := GiveTo(m.owner, taken, c)),
     NullTail(n, taken))
  }

  ghost function StepCollect(m: Mem, c: int, n: nat, arr: seq<int>, head: int, chain: seq<int>): (Mem, Pc) {
    if head != NULL then (m, Continue(n, arr + [head], Available(m, head), chain))
    else (m.(recs := m.recs + [Rec(0, NULL, NULL)], owner := m.owner + [c]), NewRec(n, arr, |m.recs|, m.allHead))
  }

  ghost function StepNewRec(m: Mem, n: nat, arr: seq<int>, rec: int, top: int, spurious: bool): (Mem, Pc) {
    var m1 := if 0 <= rec < |m.recs| then m.(recs := m.recs[rec := m.recs[rec].(next := top)]) else m;
    if m.allHead == top && !spurious
    then (m1.(allHead := rec, all := [rec] + m.all), LinkNew(n, arr, rec))
    else (m1, NewRec(n, arr, rec, m.allHead))
  }

  /** `acquire_many` stores the link only when the array already has an element. */
  ghost function StepLinkNew(m: Mem, n: nat, arr: seq<int>, rec: int): (Mem, Pc) {
    (if arr == [] then m else SetAvailable(m, Last(arr), rec), Continue(n, arr + [rec], NULL, []))
  }

  ghost function SlotDone(n: nat, arr: seq<int>, srcs: seq<nat>, out: seq<int>): Pc {
    if |out| < |arr| then ProtectLoad(n, arr, srcs, out) else Holding(n, arr, out)
  }

  ghost function SourceOf(m: Mem, srcs: seq<nat>, i: nat): int {
    if i < |srcs| then Source(m, srcs[i]) else 0
  }

  ghost function Slot(arr: seq<int>, i: nat): int {
    if i < |arr| then arr[i] else NULL
  }

  ghost function StepReset(m: Mem, n: nat, arr: seq<int>, i: nat, dropping: bool): (Mem, Pc) {
    (SetPtr(m, Slot(arr, i), 0),
     if i + 1 < |arr| then Reset(n, arr, i + 1, dropping) else if dropping then Check(n, arr) else Holding(n, arr, []))
  }

  ghost function StepPushCas(m: Mem, n: nat, arr: seq<int>, top: int): (Mem, Pc) {
    if m.avail == Head(top, false)
    then (m.(avail := Head(Slot(arr, 0), false), free := arr + m.free, owner := GiveTo(m.owner, arr, FREE)), Idle)
    else (m, PushLoad(n, arr))
  }

  ghost function Tick(m: Mem, c: int, pc: Pc, spurious: bool): (Mem, Pc) {
    match pc
    case Idle => (m, pc)
    case LoadAvail(n) => (m, if m.avail == Head(NULL, false) then Collect(n, [], NULL, []) else FetchOr(n, m.avail))
    case FetchOr(n, seen) => StepFetchOr(m, c, n, seen)
    case Traverse(n, taken) => StepTraverse(m, n, taken)
    case Unlock(n, taken, rest) => StepUnlock(m, c, n, taken, rest)
    case NullTail(n, taken) => (SetAvailable(m, Last(taken), NULL), Collect(n, [], Slot(taken, 0), taken))
    case Collect(n, arr, head, chain) => StepCollect(m, c, n, arr, head, chain)
    case NewRec(n, arr, rec, top) => StepNewRec(m, n, arr, rec, top, spurious)
    case LinkNew(n, arr, rec) => StepLinkNew(m, n, arr, rec)
    case Holding(n, arr, out) => (m, pc)
    case ProtectLoad(n, arr, srcs, out) => (m, ProtectStore(n, arr, srcs, out, SourceOf(m, srcs, |out|)))
    case ProtectStore(n, arr, srcs, out, p) =>
      (SetPtr(m, Slot(arr, |out|), p), ProtectCheck(n, arr, srcs, out, p))
    case ProtectCheck(n, arr, srcs, out, p) =>
      (m, if SourceOf(m, srcs, |out|) == p then SlotDone(n, arr, srcs, out + [p])
          else ProtectReset(n, arr, srcs, out, SourceOf(m, srcs, |out|)))
    case ProtectReset(n, arr, srcs, out, p) =>
      (SetPtr(m, Slot(arr, |out|), 0), ProtectStore(n, arr, srcs, out, p))
    case Reset(n, arr, i, dropping) => StepReset(m, n, arr, i, dropping)
    case Check(n, arr) => (m, if Available(m, Last(arr)) == NULL then PushLoad(n, arr) else Panicked)
    case PushLoad(n, arr) => (m, if m.avail.locked then pc else PushStore(n, arr, m.avail.ptr))
    case PushStore(n, arr, top) => (SetAvailable(m, Last(arr), top), PushCas(n, arr, top))
    case PushCas(n, arr, top) => StepPushCas(m, n, arr, top)
    case Panicked => (m, pc)
  }

  /** Calls start an operation; `Run` takes the client's next step. */
  datatype Action =
    | Acquire(n: nat)
    | ProtectAll(srcs: seq<nat>)
    | ResetAll
    | Drop
    | Run(spurious: bool)

  ghost predicate AreSources(m: Mem, srcs: seq<nat>) {
    forall j | 0 <= j < |srcs| :: srcs[j] < |m.src|
  }

  ghost function Act(m: Mem, c: int, pc: Pc, a: Action): (Mem, Pc) {
    match a
    case Acquire(n) => (m, if pc.Idle? && n >= 1 then LoadAvail(n) else pc)
    case ProtectAll(srcs) =>
      (m, if pc.Holding? && |srcs| == |pc.arr| && AreSources(m, srcs) then ProtectLoad(pc.n, pc.arr, srcs, []) else pc)
    case ResetAll => (m, if pc.Holding? then Reset(pc.n, pc.arr, 0, false) else pc)
    case Drop => (m, if pc.Holding? then Reset(pc.n, pc.arr, 0, true) else pc)
    case Run(spurious) => Tick(m, c, pc, spurious)
  }

  ghost function Step(s: State, c: nat, a: Action): State {
    if c >= |s.pcs| then s
    else
      var r := Act(s.m, c, s.pcs[c], a);
      State(r.0, s.pcs[c := r.1])
  }

  /** A source changes under the clients' feet. */
  ghost function Change(s: State, j: nat, v: int): State {
    if j < |s.m.src| then s.(m := s.m.(src := s.m.src[j := v])) else s
  }

  // ---------- Runs ----------

  datatype Event = By(c: nat, a: Action) | Write(j: nat, v: int)

  ghost function Apply(s: State, e: Event): State {
    match e
    case By(c, a) => Step(s, c, a)
    case Write(j, v) => Change(s, j, v)
  }

  ghost function Exec(s: State, events: seq<Event>): State {
    if events == [] then s else Apply(Exec(s, events[..|events| - 1]), events[|events| - 1])
  }

  /**
    The hypothesis of the ownership theorems.  `try_acquire_available` goes on with the pointer it
    loaded, not with the one `fetch_or` returned; a step keeps the hypothesis unless it wins the lock
    bit while the two differ.
   */
  ghost predicate LockSound(s: State, e: Event) {
    e.By? && e.c < |s.pcs| && e.a.Run? && s.pcs[e.c].FetchOr? && !s.m.avail.locked ==> s.pcs[e.c].seen == s.m.avail
  }

  ghost predicate SoundRun(s: State, events: seq<Event>) {
    events != [] ==>
      && SoundRun(s, events[..|events| - 1])
      && LockSound(Exec(s, events[..|events| - 1]), events[|events| - 1])
  }

  // ---------- Ownership ----------

  /** The records a client owns, as its local variables give them. */
  ghost function Held(pc: Pc): seq<int> {
    match pc
    case NullTail(_, taken) => taken
    case Collect(_, arr, _, chain) => if |arr| < |chain| then chain else arr
    case NewRec(_, arr, rec, _) => arr + [rec]
    case LinkNew(_, arr, rec) => arr + [rec]
    case Holding(_, arr, _) => arr
    case ProtectLoad(_, arr, _, _) => arr
    case ProtectStore(_, arr, _, _, _) => arr
    case ProtectCheck(_, arr, _, _, _) => arr
    case ProtectReset(_, arr, _, _, _) => arr
    case Reset(_, arr, _, _) => arr
    case Check(_, arr) => arr
    case PushLoad(_, arr) => arr
    case PushStore(_, arr, _) => arr
    case PushCas(_, arr, _) => arr
    case _ => []
  }

  /** The record reached from `avail_head` by following `k` links, or null. */
  ghost function ChaseFree(m: Mem, k: nat): int {
    if k == 0 then m.avail.ptr else Available(m, ChaseFree(m, k - 1))
  }

  ghost predicate OnFreeList(m: Mem, r: int) {
    exists k: nat :: ChaseFree(m, k) == r
  }

  /** `r` is on the free list and held by nobody, or off it and held by exactly one client. */
  ghost predicate Placed(s: State, r: int) {
    if OnFreeList(s.m, r) then forall c | 0 <= c < |s.pcs| :: r !in Held(s.pcs[c])
    else exists c | 0 <= c < |s.pcs| ::
      r in Held(s.pcs[c]) && forall d | 0 <= d < |s.pcs| && d != c :: r !in Held(s.pcs[d])
  }

  ghost predicate Partition(s: State) {
    forall r | 0 <= r < |s.m.recs| :: Placed(s, r)
  }
}
