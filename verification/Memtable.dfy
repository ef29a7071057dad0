/** The memtable's code over the skip list, and the meaning of its reads while other threads write. */
module Memtable {
  import opened Basics
  import opened Lists
  import opened InternalKey
  import opened SkipListHeap
  import opened SkipListMachine
  import opened SkipListSpec
  import opened SkipListInvariant
  import opened SkipListTheorems
  import opened Mvcc
  import opened ArenaLayout
  import opened SkipListKeys
  import SkipList

  /** The shortest key the comparator can split. */
  const TRAILER: nat := 8

  ghost predicate LongKeys(es: seq<Entry>) {
    forall i | 0 <= i < |es| :: |es[i].key| >= TRAILER
  }

  /** A search for `key` gives the comparator no key shorter than a trailer: on an empty list it compares
      nothing. */
  ghost predicate Comparable(es: seq<Entry>, key: Bytes) {
    es == [] || (|key| >= TRAILER && LongKeys(es))
  }

  class Table {
    const list: SkipList.List
    // the entries inserted so far, oldest first
    ghost var history: seq<Entry>

    /** A short key can only have been inserted first, and then nothing after it. */
    ghost predicate Valid()
      reads this, list
    {
      && list.Valid() && list.less == KeyLess && list.Entries() == InsertAll(KeyLess, history)
      && (|history| <= 1 || LongKeys(history))
    }

    constructor ()
      ensures Valid() && history == [] && fresh(list)
    {
      KeyLessIsStrictWeakOrder();
      list := new SkipList.List(KeyLess);
      history := [];
    }

    /** Whether the comparator survives a search for `key`. */
    method CanCompare(key: Bytes) returns (b: bool)
      requires Valid()
      ensures b <==> Comparable(history, key)
      ensures b <==> history == [] || (|key| >= 8 && forall e | e in history :: |e.key| >= 8)
    {
      FirstEntry(list.Memory());
      FirstDecides(history, key);
      var first := list.next[HEAD][0];
      b := first == NULL || (|key| >= TRAILER && |list.nodes[first].key| >= TRAILER);
    }

    /** `insert`: the key comes encoded.  False where the source panics in the comparator, or copies past
        the space it reserved; in the first case nothing is inserted. */
    method Insert(key: Bytes, value: Bytes, height: nat) returns (ok: bool)
      requires Valid() && 1 <= height <= MAX_HEIGHT
      modifies this, list
      ensures ok <==> Comparable(old(history), key) && Storable(|key|, |value|)
      ensures ok ==> Valid() && history == old(history) + [Entry(key, value)]
      ensures !Comparable(old(history), key) ==> Valid() && history == old(history)
    {
      ok := CanCompare(key);
      CopiesFitIffStorable(height, |key|, |value|);
      if !ok || !CopiesFit(height, |key|, |value|) {
        return false;
      }
      var _ := list.Insert(key, value, height);
      HistoryGrows(history, Entry(key, value));
      history := history + [Entry(key, value)];
    }

    /** `insert_direct`: user key and trailer are written straight into the node.  False where the source
        copies past the space it reserved, or panics on the sequence number or in the comparator; in the
        last two cases nothing is inserted. */
    method InsertDirect(user: Bytes, seqNo: nat, op: OpType, value: Bytes, height: nat) returns (ok: bool)
      requires Valid() && 1 <= height <= MAX_HEIGHT
      modifies this, list
      ensures ok <==> Storable(|user| + 8, |value|) && seqNo < SEQ_LIMIT && LongKeys(old(history))
      ensures ok ==> Valid() && history == old(history) + [Entry(EncodeKey(user, seqNo, op), value)]
      ensures !ok && Storable(|user| + 8, |value|) ==> Valid() && history == old(history)
    {
      CopiesFitIffStorable(height, |user| + 8, |value|);
      if !CopiesFit(height, |user| + 8, |value|) || seqNo >= SEQ_LIMIT {
        return false;
      }
      var key := WriteKey(user, seqNo, op);
      ok := CanCompare(key.value);
      if !ok {
        return false;
      }
      var _ := list.InsertWith(key.value, value, height);
      HistoryGrows(history, Entry(key.value, value));
      history := history + [Entry(key.value, value)];
    }

    /** `get` for an arbitrary key. */
    method Get(key: Bytes) returns (r: MemReturn)
      requires Valid()
      ensures r == if Comparable(history, key) then ReturnOf(SpecLookup(KeyLess, list.Entries(), key), key)
        else Panicked
    {
      var ok := CanCompare(key);
      if !ok {
        return Panicked;
      }
      var ctx := list.Search(key);
      var node := ctx.succs[0];
      if node == NULL {
        return NotFound;
      }
      assert CtxAt(list.Memory(), key, ctx, 0);
      var skipKey, v := list.nodes[node].key, list.nodes[node].value;
      r := ReturnOf(Some(Entry(skipKey, v)), key);
    }

    /** A snapshot read, when every entry is a write: it sees the newest write of the user key at or below
        the sequence number. */
    method GetAt(user: Bytes, seqNo: nat, ghost writes: seq<Write>) returns (r: MemReturn)
      requires Valid() && seqNo < SEQ_LIMIT && history == EntriesOf(writes) && forall w | w in writes :: ValidWrite(w)
      ensures forall i: nat | Newest(writes, user, seqNo, i) :: r == Outcome(writes[i])
      ensures r == NotFound <==> forall i: nat | i < |writes| :: !Visible(writes[i], user, seqNo)
      ensures r != NotFound ==> exists i: nat :: Newest(writes, user, seqNo, i)
    {
      WritesAreLong(writes);
      r := Get(LookupKey(user, seqNo));
      ContentsAreInserted(writes);
      GetIsNewest(writes, user, seqNo);
    }
  }

  /** The sentinel points to the first entry, or nowhere if there is none. */
  lemma {:induction false} FirstEntry(h: Heap)
    requires Inv(h) && RowOk(h, 0)
    ensures InTower(h, HEAD, 0)
    ensures var n := h.next[HEAD][0];
      if n == NULL then Content(h) == []
      else 0 <= n < |h.nodes| && Content(h) != [] && Content(h)[0] == Entry(h.nodes[n].key, h.nodes[n].value)
  {
    assert PointsOn(h, 0, h.rows[0], 0);
    if |h.rows[0]| > 1 {
      assert PointsOn(h, 0, h.rows[0], 1);
    }
  }

  /** A search that survives its first comparison survives all of them. */
  lemma {:induction false} FirstDecides(es: seq<Entry>, key: Bytes)
    requires |es| <= 1 || LongKeys(es)
    ensures var c := InsertAll(KeyLess, es);
      Comparable(es, key) <==> c == [] || (|key| >= TRAILER && |c[0].key| >= TRAILER)
  {
    InsertAllElements(KeyLess, es);
    if es != [] {
      assert InsertAll(KeyLess, es)[0] in es;
    }
  }

  /** What a successful insert does to the history. */
  lemma {:induction false} HistoryGrows(es: seq<Entry>, e: Entry)
    requires Comparable(es, e.key)
    ensures InsertAll(KeyLess, es + [e]) == SpecInsert(KeyLess, InsertAll(KeyLess, es), e)
    ensures |es + [e]| <= 1 || LongKeys(es + [e])
  {
    InsertAllAppend(KeyLess, es, e);
  }

  lemma {:induction false} WritesAreLong(ws: seq<Write>)
    ensures LongKeys(EntriesOf(ws))
  {
    forall i | 0 <= i < |ws|
      ensures |EntryOf(ws[i]).key| >= TRAILER
    {
      SplitEncoded(ws[i].user, ws[i].seqNo, ws[i].op);
    }
  }

  /** The closure of `insert_direct`: fills the key bytes of a node of length `user.len() + 8`, cast to 16
      bits; `None` where it writes past them. */
  method WriteKey(user: Bytes, seqNo: nat, op: OpType) returns (key: Option<Bytes>)
    ensures key.Some? <==> |user| + 8 < 0x1_0000
    ensures key.Some? ==> key.value == EncodeKey(user, seqNo, op)
  {
    var keyLen := (|user| + 8) % 0x1_0000;
    CastKeeps(|user| + 8, 0x1_0000);
    var node := new Byte[keyLen];
    if |user| + 8 > node.Length {
      return None;
    }
    CopyInto(node, 0, user);
    CopyInto(node, |user|, EncodeTrailer(seqNo, op));
    var bytes := node[..];
    assert bytes == bytes[..|user|] + bytes[|user|..|user| + 8];
    key := Some(bytes);
  }

  // ---------- Reads of the concurrent list ----------

  /** The inserts of the log are exactly the writes `ws`, in the order in which they were linked. */
  ghost predicate Logged(log: seq<Event>, ws: seq<Write>) {
    if log == [] then ws == []
    else if log[|log| - 1].Inserted? then
      && ws != [] && log[|log| - 1].entry == EntryOf(ws[|ws| - 1])
      && Logged(log[..|log| - 1], ws[..|ws| - 1])
    else Logged(log[..|log| - 1], ws)
  }

  lemma {:induction false} ReplayIsContents(log: seq<Event>, ws: seq<Write>)
    requires Logged(log, ws) && Replay(KeyLess, log).Some?
    ensures Replay(KeyLess, log).value == Contents(ws)
  {
    if log != [] {
      var inserted := log[|log| - 1].Inserted?;
      ReplayIsContents(log[..|log| - 1], if inserted then ws[..|ws| - 1] else ws);
    }
  }

  // ---------- Writes that were called for ----------

  /** The entry is that of a write that a node can hold. */
  ghost predicate IsWrite(e: Entry) {
    Storable(|e.key|, |e.value|) && exists w: Write :: ValidWrite(w) && EntryOf(w) == e
  }

  /** Every insert called for in the schedule is a write, and every key looked up has a trailer. */
  ghost predicate OnlyWrites(schedule: Schedule) {
    forall i | 0 <= i < |schedule| :: WriteOrRead(schedule[i].1)
  }

  ghost predicate WriteOrRead(a: Action) {
    a.Call? ==>
      match a.op
      case OpInsert(key, value) => IsWrite(Entry(key, value))
      case OpInsertWith(key, value) => IsWrite(Entry(key, value))
      case OpLookup(key) => |key| >= TRAILER
      case OpSeek(key) => |key| >= TRAILER
      case OpFirst => true
  }

  ghost predicate HasTrailer(key: Bytes) { |key| >= TRAILER }

  /** In every run of writes and lookups, the comparator is never given a key it would panic on. */
  lemma {:induction false} ComparatorNeverPanics(threads: nat, schedule: Schedule, t: nat)
    requires OnlyWrites(schedule) && t < threads
    ensures var s := Run(KeyLess, threads, schedule);
      && Running(s, t)
      && (Compared(s.h, s.pcs[t]).Some? ==> var c := Compared(s.h, s.pcs[t]).value; |c.0| >= 8 && |c.1| >= 8)
  {
    var ok := k => HasTrailer(k);
    forall i | 0 <= i < |schedule|
      ensures ActionOk(schedule[i].1, ok)
    {
      assert WriteOrRead(schedule[i].1);
      CalledKeyHasTrailer(schedule[i].1);
    }
    KeyLessIsStrictWeakOrder();
    ComparedKeysAreCalled(KeyLess, threads, schedule, t, ok);
  }

  lemma {:induction false} CalledKeyHasTrailer(a: Action)
    requires WriteOrRead(a)
    ensures a.Call? && !a.op.OpFirst? ==> HasTrailer(a.op.key)
  {
    if a.Call? && (a.op.OpInsert? || a.op.OpInsertWith?) {
      var w: Write :| ValidWrite(w) && EntryOf(w) == Entry(a.op.key, a.op.value);
      SplitEncoded(w.user, w.seqNo, w.op);
    }
  }

  ghost predicate AllWrites(jobs: seq<Job>) {
    forall i | 0 <= i < |jobs| :: jobs[i].Add? ==> IsWrite(jobs[i].entry)
  }

  lemma {:induction false} CallsAreWrites(threads: nat, schedule: Schedule, t: nat)
    requires OnlyWrites(schedule) && t < threads
    ensures AllWrites(Asked(KeyLess, threads, schedule, t))
  {
    if schedule != [] {
      var before, last := schedule[..|schedule| - 1], schedule[|schedule| - 1];
      CallsAreWrites(threads, before, t);
      assert WriteOrRead(last.1);
    }
  }

  /** Every insert in the log of such a run is a write. */
  lemma {:induction false} LoggedInsertIsWrite(threads: nat, schedule: Schedule, k: nat)
    requires OnlyWrites(schedule)
    requires k < |Run(KeyLess, threads, schedule).log| && Run(KeyLess, threads, schedule).log[k].Inserted?
    ensures IsWrite(Run(KeyLess, threads, schedule).log[k].entry)
  {
    var s := Run(KeyLess, threads, schedule);
    var t := s.log[k].tid;
    LogHasThreads(KeyLess, threads, schedule, k);
    KeyLessIsStrictWeakOrder();
    RunsAreLinearizable(KeyLess, threads, schedule);
    CallsAreWrites(threads, schedule, t);
    var i := JobsHave(s.log, t, k);
    assert Asked(KeyLess, threads, schedule, t)[i] == EventJob(s.log[k]);
  }

  /** The log up to any position lists writes. */
  lemma {:induction false} LogListsWrites(threads: nat, schedule: Schedule, k: nat) returns (ws: seq<Write>)
    requires OnlyWrites(schedule) && k <= |Run(KeyLess, threads, schedule).log|
    ensures Logged(Run(KeyLess, threads, schedule).log[..k], ws) && forall w | w in ws :: ValidWrite(w)
  {
    var log := Run(KeyLess, threads, schedule).log;
    if k == 0 {
      ws := [];
    } else {
      ws := LogListsWrites(threads, schedule, k - 1);
      assert log[..k][..k - 1] == log[..k - 1];
      if log[k - 1].Inserted? {
        LoggedInsertIsWrite(threads, schedule, k - 1);
        var w: Write :| ValidWrite(w) && EntryOf(w) == log[k - 1].entry;
        assert (ws + [w])[..|ws|] == ws;
        ws := ws + [w];
      }
    }
  }

  /** In every run whose inserts are writes, a read at (user, seqNo) that took effect at log position `k`
      answers with the newest visible write among those linked before it, whatever ran concurrently. */
  lemma {:induction false} ConcurrentGetIsNewest(threads: nat, schedule: Schedule, k: nat, user: Bytes, seqNo: nat)
    returns (ws: seq<Write>)
    requires OnlyWrites(schedule) && seqNo < SEQ_LIMIT
    requires var log := Run(KeyLess, threads, schedule).log;
      k < |log| && log[k].LookedUp? && log[k].key == LookupKey(user, seqNo)
    ensures Logged(Run(KeyLess, threads, schedule).log[..k], ws) && forall w | w in ws :: ValidWrite(w)
    ensures var r := ReturnOf(Run(KeyLess, threads, schedule).log[k].result, LookupKey(user, seqNo));
      && (forall i: nat | Newest(ws, user, seqNo, i) :: r == Outcome(ws[i]))
      && (r == NotFound <==> forall i: nat | i < |ws| :: !Visible(ws[i], user, seqNo))
      && (r != NotFound ==> exists i: nat :: Newest(ws, user, seqNo, i))
  {
    ws := LogListsWrites(threads, schedule, k);
    RecordedLookup(threads, schedule, k);
    ReplayIsContents(Run(KeyLess, threads, schedule).log[..k], ws);
    GetIsNewest(ws, user, seqNo);
  }

  /** A recorded answer is the sequential answer on the log before it. */
  lemma {:induction false} RecordedLookup(threads: nat, schedule: Schedule, k: nat)
    requires var log := Run(KeyLess, threads, schedule).log; k < |log| && log[k].LookedUp?
    ensures var log := Run(KeyLess, threads, schedule).log;
      Replay(KeyLess, log[..k]).Some? && log[k].result == SpecLookup(KeyLess, Replay(KeyLess, log[..k]).value,
          log[k].key)
  {
    KeyLessIsStrictWeakOrder();
    RunsAreLinearizable(KeyLess, threads, schedule);
    AnswerAt(KeyLess, Run(KeyLess, threads, schedule).log, k);
  }

  /** Every answer in a legal log is the sequential one. */
  lemma {:induction false} AnswerAt(less: Less, log: seq<Event>, k: nat)
    requires k < |log| && log[k].LookedUp? && Replay(less, log).Some?
    ensures Replay(less, log[..k]).Some?
    ensures log[k].result == SpecLookup(less, Replay(less, log[..k]).value, log[k].key)
  {
    ReplayPrefix(less, log, k + 1);
    ReplayAppend(less, log[..k], log[k]);
    assert log[..k] + [log[k]] == log[..k + 1];
  }
}
