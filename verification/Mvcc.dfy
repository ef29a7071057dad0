/**
  What a memtable read means.  A memtable is a history of writes, in the order in which their nodes
  were linked; a read of `user` at `seqNo` must see the newest write it may see.  The code instead
  takes the first entry >= one search key.  The two agree.
 */
module Mvcc {
  import opened Basics
  import opened ByteOrder
  import opened InternalKey
  import opened SkipListHeap
  import opened SkipListMachine
  import opened SkipListSpec
  import opened SkipListTheorems

  datatype Write = Write(user: Bytes, seqNo: nat, op: OpType, value: Bytes)

  /** What `pack_trailer` asserts. */
  predicate ValidWrite(w: Write) { w.seqNo < SEQ_LIMIT }

  function KeyOfWrite(w: Write): Bytes { EncodeKey(w.user, w.seqNo, w.op) }

  function EntryOf(w: Write): Entry { Entry(KeyOfWrite(w), w.value) }

  // ---------- Reading ----------

  /** `MemReturn`; `Panicked` where the source panics. */
  datatype MemReturn = NotFound | Merged | Deleted | Value(value: Bytes) | Panicked

  /** `Memtable::get` after `first_ge` answered. */
  function ReturnOf(found: Option<Entry>, lookup: Bytes): MemReturn {
    if found.None? then NotFound
    else
      var e := found.value;
      if |e.key| < 8 || |lookup| < 8 then Panicked
      else if UserOf(e.key) != UserOf(lookup) then NotFound
      else if DecodeKey(e.key).op >= 256 then Panicked
      else
        match OpOfCode(DecodeKey(e.key).op)
        case Some(Put) => Value(e.value)
        case Some(Delete) => Deleted
        case Some(Merge) => Merged
        case _ => Panicked
  }

  function Outcome(w: Write): MemReturn {
    match w.op
    case Put => Value(w.value)
    case Delete => Deleted
    case Merge => Merged
    case Max => Panicked
  }

  /** A read of `user` at `seqNo` may see this write. */
  predicate Visible(w: Write, user: Bytes, seqNo: nat) {
    w.user == user && w.seqNo <= seqNo
  }

  /** `a` is superseded by `b`: an older version, or the same version linked earlier. */
  predicate Superseded(a: Write, i: nat, b: Write, j: nat) {
    || a.seqNo < b.seqNo
    || (a.seqNo == b.seqNo && OlderKind(a.op, b.op))
    || (a.seqNo == b.seqNo && a.op == b.op && i <= j)
  }

  /** `ws[i]` is the newest of the writes that a read of `user` at `seqNo` may see. */
  ghost predicate Newest(ws: seq<Write>, user: Bytes, seqNo: nat, i: nat) {
    && i < |ws| && Visible(ws[i], user, seqNo)
    && (forall j: nat | j < |ws| && Visible(ws[j], user, seqNo) :: Superseded(ws[j], j, ws[i], i))
  }

  // ---------- The list after a history of writes ----------

  function EntriesOf(ws: seq<Write>): seq<Entry> {
    seq(|ws|, i requires 0 <= i < |ws| => EntryOf(ws[i]))
  }

  ghost function Contents(ws: seq<Write>): seq<Entry> {
    if ws == [] then []
    else SpecInsert(KeyLess, Contents(ws[..|ws| - 1]), EntryOf(ws[|ws| - 1]))
  }

  /** Which write each entry of `Contents` came from. */
  ghost function Order(ws: seq<Write>): seq<int> {
    if ws == [] then []
    else
      var before := ws[..|ws| - 1];
      var p := LowerBound(KeyLess, Contents(before), KeyOfWrite(ws[|ws| - 1]));
      if p <= |Order(before)| then InsertAt(Order(before), p, |ws| - 1) else []
  }

  ghost predicate Tracks(ws: seq<Write>, k: int)
    requires 0 <= k < |Order(ws)| && k < |Contents(ws)|
  {
    0 <= Order(ws)[k] < |ws| && Contents(ws)[k] == EntryOf(ws[Order(ws)[k]])
  }

  /** Entries `k` and `l` of `c` are in key order, and among equal keys the one of the later write comes
      first. */
  predicate InKeyOrder(c: seq<Entry>, origin: seq<int>, k: int, l: int)
    requires |c| == |origin| && 0 <= k < |c| && 0 <= l < |c|
  {
    KeyLess(c[k].key, c[l].key) || (c[k].key == c[l].key && origin[k] > origin[l])
  }

  ghost predicate Stamped(ws: seq<Write>, k: int, l: int)
    requires |Order(ws)| == |Contents(ws)| && 0 <= k < |Contents(ws)| && 0 <= l < |Contents(ws)|
  {
    InKeyOrder(Contents(ws), Order(ws), k, l)
  }

  lemma {:induction false} ContentsAreInserted(ws: seq<Write>)
    ensures Contents(ws) == InsertAll(KeyLess, EntriesOf(ws))
  {
    if ws != [] {
      ContentsAreInserted(ws[..|ws| - 1]);
      assert EntriesOf(ws)[..|ws| - 1] == EntriesOf(ws[..|ws| - 1]);
    }
  }

  ghost predicate OrderOk(ws: seq<Write>) {
    && |Order(ws)| == |Contents(ws)| == |ws|
    && (forall k | 0 <= k < |ws| :: Tracks(ws, k))
    && (forall k, l | 0 <= k < l < |ws| :: Stamped(ws, k, l))
    && (forall i | 0 <= i < |ws| :: i in Order(ws))
  }

  lemma {:induction false} ContentsSorted(ws: seq<Write>)
    ensures SortedEntries(KeyLess, Contents(ws))
  {
    if ws != [] {
      ContentsSorted(ws[..|ws| - 1]);
      KeyLessIsStrictWeakOrder();
      InsertKeepsSorted(KeyLess, Contents(ws[..|ws| - 1]), EntryOf(ws[|ws| - 1]));
    }
  }

  ghost function Spliced<T>(row: seq<T>, p: nat, x: T, k: nat): T
    requires p <= |row| && k <= |row|
  {
    if k < p then row[k] else if k == p then x else row[k - 1]
  }

  lemma {:induction false} SpliceIndex<T>(row: seq<T>, p: nat, x: T)
    requires p <= |row|
    ensures var s := row[..p] + [x] + row[p..];
      |s| == |row| + 1 && forall k: nat | k < |s| :: s[k] == Spliced(row, p, x, k)
  {
  }

  /** How one more write extends the entries and their origins. */
  lemma {:induction false} ContentsStep(ws: seq<Write>, p: nat)
    requires ws != []
    requires var before := ws[..|ws| - 1];
      |Order(before)| == |Contents(before)| == |ws| - 1
      && p == LowerBound(KeyLess, Contents(before), KeyOfWrite(ws[|ws| - 1]))
    ensures |Order(ws)| == |Contents(ws)| == |ws|
    ensures var before := ws[..|ws| - 1];
      forall k: nat | k < |ws| :: Contents(ws)[k] == Spliced(Contents(before), p, EntryOf(ws[|ws| - 1]), k)
    ensures var before := ws[..|ws| - 1];
      forall k: nat | k < |ws| :: Order(ws)[k] == Spliced(Order(before), p, |ws| - 1, k)
  {
    var before := ws[..|ws| - 1];
    SpliceIndex(Contents(before), p, EntryOf(ws[|ws| - 1]));
    SpliceIndex(Order(before), p, |ws| - 1);
  }

  /** Splicing in the newest entry at its lower bound keeps the order. */
  lemma {:induction false} SpliceInKeyOrder(c: seq<Entry>, origin: seq<int>, p: nat, e: Entry, x: int, k: nat, l: nat)
    requires |c| == |origin| && p <= |c| && k < l <= |c|
    requires forall i | 0 <= i < p :: KeyLess(c[i].key, e.key)
    requires forall i | p <= i < |c| :: !KeyLess(c[i].key, e.key) && origin[i] < x
    requires forall i, j | 0 <= i < j < |c| :: InKeyOrder(c, origin, i, j)
    ensures InKeyOrder(c[..p] + [e] + c[p..], origin[..p] + [x] + origin[p..], k, l)
  {
    SpliceIndex(c, p, e);
    SpliceIndex(origin, p, x);
    if k != p && l != p {
      assert InKeyOrder(c, origin, if k < p then k else k - 1, if l < p then l else l - 1);
    } else if k == p {
      CmpKeysFlips(c[l - 1].key, e.key);
      CmpKeysEqual(e.key, c[l - 1].key);
    }
  }

  lemma {:induction false} NewIsFirst(ws: seq<Write>, p: nat, k: int, l: int)
    requires ws != [] && OrderOk(ws[..|ws| - 1])
    requires p == LowerBound(KeyLess, Contents(ws[..|ws| - 1]), KeyOfWrite(ws[|ws| - 1]))
    requires 0 <= k < l < |ws|
    ensures |Order(ws)| == |Contents(ws)| == |ws| && Stamped(ws, k, l)
  {
    var before := ws[..|ws| - 1];
    var e := EntryOf(ws[|ws| - 1]);
    ContentsStep(ws, p);
    KeyLessIsStrictWeakOrder();
    ContentsSorted(before);
    LowerBoundSplits(KeyLess, Contents(before), e.key);
    forall i, j | 0 <= i < j < |before|
      ensures InKeyOrder(Contents(before), Order(before), i, j)
    {
      assert Stamped(before, i, j);
    }
    forall i | p <= i < |before|
      ensures Order(before)[i] < |before|
    {
      assert Tracks(before, i);
    }
    SpliceInKeyOrder(Contents(before), Order(before), p, e, |before|, k, l);
  }

  lemma {:induction false} TracksStep(ws: seq<Write>, p: nat, k: nat)
    requires ws != [] && OrderOk(ws[..|ws| - 1]) && k < |ws|
    requires p == LowerBound(KeyLess, Contents(ws[..|ws| - 1]), KeyOfWrite(ws[|ws| - 1]))
    ensures |Order(ws)| == |Contents(ws)| == |ws| && Tracks(ws, k)
  {
    ContentsStep(ws, p);
    if k != p {
      assert Tracks(ws[..|ws| - 1], if k < p then k else k - 1);
    }
  }

  lemma {:induction false} OrderIsOk(ws: seq<Write>)
    ensures OrderOk(ws)
  {
    if ws != [] {
      var before := ws[..|ws| - 1];
      OrderIsOk(before);
      var p := LowerBound(KeyLess, Contents(before), KeyOfWrite(ws[|ws| - 1]));
      ContentsStep(ws, p);
      forall k | 0 <= k < |ws|
        ensures Tracks(ws, k)
      {
        TracksStep(ws, p, k);
      }
      forall k, l | 0 <= k < l < |ws|
        ensures Stamped(ws, k, l)
      {
        NewIsFirst(ws, p, k, l);
      }
      forall i | 0 <= i < |ws|
        ensures i in Order(ws)
      {
        InsertAtMember(Order(before), p, |ws| - 1, i);
      }
    }
  }

  // ---------- Reads ----------

  function LookupKey(user: Bytes, seqNo: nat): Bytes { EncodeKey(user, seqNo, Max) }

  /** The search key sorts after the versions that are too new and before those that may be seen. */
  lemma {:induction false} LookupSplitsVersions(w: Write, user: Bytes, seqNo: nat)
    requires ValidWrite(w) && seqNo < SEQ_LIMIT && w.user == user
    ensures KeyLess(KeyOfWrite(w), LookupKey(user, seqNo)) <==> !Visible(w, user, seqNo)
  {
    CmpKeysIsCmpParts(w.user, w.seqNo, w.op, user, seqNo, Max);
    CmpEqual(user, user);
  }

  /** A key between the search key and a visible write belongs to the same user. */
  lemma {:induction false} SandwichedUser(e: Write, w: Write, user: Bytes, seqNo: nat)
    requires ValidWrite(e) && ValidWrite(w) && seqNo < SEQ_LIMIT && w.user == user
    requires !KeyLess(KeyOfWrite(e), LookupKey(user, seqNo)) && !KeyLess(KeyOfWrite(w), KeyOfWrite(e))
    ensures e.user == user
  {
    CmpKeysIsCmpParts(e.user, e.seqNo, e.op, user, seqNo, Max);
    CmpKeysIsCmpParts(w.user, w.seqNo, w.op, e.user, e.seqNo, e.op);
    CmpFlips(e.user, user);
    CmpEqual(e.user, user);
  }

  /** Two writes of one user, the first not after the second in key order, the tie decided. */
  lemma {:induction false} KeyOrderSupersedes(a: Write, i: nat, b: Write, j: nat)
    requires ValidWrite(a) && ValidWrite(b) && a.user == b.user
    requires KeyLess(KeyOfWrite(b), KeyOfWrite(a)) || (KeyOfWrite(b) == KeyOfWrite(a) && i <= j)
    ensures Superseded(a, i, b, j)
  {
    CmpKeysIsCmpParts(b.user, b.seqNo, b.op, a.user, a.seqNo, a.op);
    CmpEqual(a.user, a.user);
    CmpKeysEqual(KeyOfWrite(b), KeyOfWrite(a));
  }

  lemma {:induction false} ReturnIsOutcome(w: Write, lookup: Bytes)
    requires ValidWrite(w) && |lookup| >= 8
    ensures ReturnOf(Some(EntryOf(w)), lookup) == if w.user == UserOf(lookup) then Outcome(w) else NotFound
  {
    SplitEncoded(w.user, w.seqNo, w.op);
    DecodeEncode(w.user, w.seqNo, w.op);
  }

  /** If any write is visible, the first entry >= the search key is the newest visible one. */
  lemma {:induction false} FirstGeIsNewest(ws: seq<Write>, user: Bytes, seqNo: nat, j: nat) returns (i: nat)
    requires (forall w | w in ws :: ValidWrite(w)) && seqNo < SEQ_LIMIT
    requires j < |ws| && Visible(ws[j], user, seqNo)
    ensures Newest(ws, user, seqNo, i)
    ensures SpecLookup(KeyLess, Contents(ws), LookupKey(user, seqNo)) == Some(EntryOf(ws[i]))
  {
    OrderIsOk(ws);
    KeyLessIsStrictWeakOrder();
    ContentsSorted(ws);
    var p := LowerBound(KeyLess, Contents(ws), LookupKey(user, seqNo));
    LowerBoundSplits(KeyLess, Contents(ws), LookupKey(user, seqNo));
    var q := VisibleIsAtOrAfter(ws, user, seqNo, j, p);
    assert Tracks(ws, p);
    i := Order(ws)[p];
    forall m: nat | m < |ws| && Visible(ws[m], user, seqNo)
      ensures ws[i].user == user && Superseded(ws[m], m, ws[i], i)
    {
      FirstSupersedes(ws, user, seqNo, m, p);
    }
    assert ws[i].user == user by {
      FirstSupersedes(ws, user, seqNo, j, p);
    }
    LookupSplitsVersions(ws[i], user, seqNo);
  }

  lemma {:induction false} VisibleIsAtOrAfter(ws: seq<Write>, user: Bytes, seqNo: nat, m: nat, p: nat) returns (q: nat)
    requires OrderOk(ws) && (forall w | w in ws :: ValidWrite(w)) && seqNo < SEQ_LIMIT
    requires m < |ws| && Visible(ws[m], user, seqNo)
    requires p <= |ws| && forall k | 0 <= k < p :: KeyLess(Contents(ws)[k].key, LookupKey(user, seqNo))
    ensures p <= q < |ws| && Order(ws)[q] == m
  {
    q := Position(Order(ws), m);
    assert Tracks(ws, q);
    LookupSplitsVersions(ws[m], user, seqNo);
  }

  lemma {:induction false} FirstSupersedes(ws: seq<Write>, user: Bytes, seqNo: nat, m: nat, p: nat)
    requires OrderOk(ws) && (forall w | w in ws :: ValidWrite(w)) && seqNo < SEQ_LIMIT
    requires m < |ws| && Visible(ws[m], user, seqNo) && p < |ws|
    requires forall k | 0 <= k < p :: KeyLess(Contents(ws)[k].key, LookupKey(user, seqNo))
    requires !KeyLess(Contents(ws)[p].key, LookupKey(user, seqNo))
    ensures var i := Order(ws)[p]; 0 <= i < |ws| && ws[i].user == user && Superseded(ws[m], m, ws[i], i)
  {
    var q := VisibleIsAtOrAfter(ws, user, seqNo, m, p);
    assert Tracks(ws, p) && Tracks(ws, q);
    var i := Order(ws)[p];
    assert p < q ==> Stamped(ws, p, q);
    CmpKeysFlips(KeyOfWrite(ws[i]), KeyOfWrite(ws[m]));
    CmpKeysEqual(KeyOfWrite(ws[i]), KeyOfWrite(ws[m]));
    SandwichedUser(ws[i], ws[m], user, seqNo);
    KeyOrderSupersedes(ws[m], m, ws[i], i);
  }

  lemma {:induction false} NewestIsUnique(ws: seq<Write>, user: Bytes, seqNo: nat, i: nat, k: nat)
    requires Newest(ws, user, seqNo, i) && Newest(ws, user, seqNo, k)
    ensures i == k
  {
    assert Superseded(ws[k], k, ws[i], i) && Superseded(ws[i], i, ws[k], k);
  }

  /** When a write is visible, the read returns the outcome of a newest one. */
  lemma {:induction false} GetFinds(ws: seq<Write>, user: Bytes, seqNo: nat, j: nat) returns (i: nat)
    requires (forall w | w in ws :: ValidWrite(w)) && seqNo < SEQ_LIMIT
    requires j < |ws| && Visible(ws[j], user, seqNo)
    ensures Newest(ws, user, seqNo, i)
    ensures var r := ReturnOf(SpecLookup(KeyLess, Contents(ws), LookupKey(user, seqNo)), LookupKey(user, seqNo));
      r == Outcome(ws[i]) && r != NotFound
  {
    SplitEncoded(user, seqNo, Max);
    i := FirstGeIsNewest(ws, user, seqNo, j);
    ReturnIsOutcome(ws[i], LookupKey(user, seqNo));
  }

  /** A read returns the newest visible write's outcome, and `NotFound` exactly when there is none. */
  lemma {:induction false} GetIsNewest(ws: seq<Write>, user: Bytes, seqNo: nat)
    requires (forall w | w in ws :: ValidWrite(w)) && seqNo < SEQ_LIMIT
    ensures var r := ReturnOf(SpecLookup(KeyLess, Contents(ws), LookupKey(user, seqNo)), LookupKey(user, seqNo));
      && (forall i: nat | Newest(ws, user, seqNo, i) :: r == Outcome(ws[i]))
      && (r == NotFound <==> forall i: nat | i < |ws| :: !Visible(ws[i], user, seqNo))
      && (r != NotFound ==> exists i: nat :: Newest(ws, user, seqNo, i))
  {
    if j: nat :| j < |ws| && Visible(ws[j], user, seqNo) {
      var i := GetFinds(ws, user, seqNo, j);
      forall k: nat | Newest(ws, user, seqNo, k)
        ensures k == i
      {
        NewestIsUnique(ws, user, seqNo, i, k);
      }
    } else {
      NothingVisible(ws, user, seqNo);
    }
  }

  lemma {:induction false} NothingVisible(ws: seq<Write>, user: Bytes, seqNo: nat)
    requires (forall w | w in ws :: ValidWrite(w)) && seqNo < SEQ_LIMIT
    requires forall i: nat | i < |ws| :: !Visible(ws[i], user, seqNo)
    ensures ReturnOf(SpecLookup(KeyLess, Contents(ws), LookupKey(user, seqNo)), LookupKey(user, seqNo)) == NotFound
  {
    var p := LowerBound(KeyLess, Contents(ws), LookupKey(user, seqNo));
    OrderIsOk(ws);
    SplitEncoded(user, seqNo, Max);
    if p < |ws| {
      KeyLessIsStrictWeakOrder();
      ContentsSorted(ws);
      LowerBoundSplits(KeyLess, Contents(ws), LookupKey(user, seqNo));
      assert Tracks(ws, p);
      var w := ws[Order(ws)[p]];
      ReturnIsOutcome(w, LookupKey(user, seqNo));
      if w.user == user {
        LookupSplitsVersions(w, user, seqNo);
      }
    }
  }

  // ---------- Versions with one sequence number ----------

  /** `ws[i]` is an `op` of `user` at exactly `seqNo`. */
  predicate HasKind(ws: seq<Write>, user: Bytes, seqNo: nat, op: OpType, i: nat) {
    i < |ws| && ws[i].user == user && ws[i].seqNo == seqNo && ws[i].op == op
  }

  ghost predicate Has(ws: seq<Write>, user: Bytes, seqNo: nat, op: OpType) {
    exists i: nat :: HasKind(ws, user, seqNo, op, i)
  }

  /** The newest write a read at `seqNo` may see, if any was made at exactly `seqNo`, is of the strongest kind
      made there. */
  lemma {:induction false} NewestKind(ws: seq<Write>, user: Bytes, seqNo: nat, op: OpType, i: nat, j: nat)
    requires Newest(ws, user, seqNo, i) && HasKind(ws, user, seqNo, op, j)
    ensures ws[i].seqNo == seqNo && (ws[i].op == op ==> j <= i) && !OlderKind(ws[i].op, op)
  {
    assert Superseded(ws[j], j, ws[i], i);
  }

  /** Of the writes of one user key at the sequence number read, a merge is preferred to a delete and a delete
      to a put, whichever was linked later; of several puts the last linked one is read. */
  lemma {:induction false} KindDecidesTies(ws: seq<Write>, user: Bytes, seqNo: nat)
    requires (forall w | w in ws :: ValidWrite(w)) && seqNo < SEQ_LIMIT && !Has(ws, user, seqNo, Max)
    ensures var r := ReturnOf(SpecLookup(KeyLess, Contents(ws), LookupKey(user, seqNo)), LookupKey(user, seqNo));
      var merge, delete, put := Has(ws, user, seqNo, Merge), Has(ws, user, seqNo, Delete), Has(ws, user, seqNo, Put);
      && (merge ==> r == Merged)
      && (!merge && delete ==> r == Deleted)
      && (!merge && !delete && put ==>
            exists i: nat | HasKind(ws, user, seqNo, Put, i) ::
              r == Value(ws[i].value) && forall j: nat | HasKind(ws, user, seqNo, Put, j) :: j <= i)
  {
    GetIsNewest(ws, user, seqNo);
    if op: OpType, j: nat :| HasKind(ws, user, seqNo, op, j) {
      assert Visible(ws[j], user, seqNo);
      var i: nat :| Newest(ws, user, seqNo, i);
      NewestKind(ws, user, seqNo, op, i, j);
      assert HasKind(ws, user, seqNo, ws[i].op, i);
      forall o: OpType, l: nat | HasKind(ws, user, seqNo, o, l)
        ensures !OlderKind(ws[i].op, o) && (ws[i].op == o ==> l <= i)
      {
        NewestKind(ws, user, seqNo, o, i, l);
      }
    }
  }
}
