/**
  What the skip list means: a sequence of entries sorted by key, in which a new entry is placed
  before every entry that does not sort before it.  `Replay` executes a log of operations on that
  sequence, one at a time, and fails if a lookup reports anything but the first entry >= its key.
 */
module SkipListSpec {
  import opened Basics
  import opened Lists
  import opened SkipListHeap
  import opened SkipListMachine

  /** The number of leading entries that sort before `key`. */
  ghost function LowerBound(less: Less, c: seq<Entry>, key: Bytes): (p: nat)
    ensures p <= |c|
  {
    if c == [] || !less(c[0].key, key) then 0 else 1 + LowerBound(less, c[1..], key)
  }

  ghost function SpecInsert(less: Less, c: seq<Entry>, e: Entry): seq<Entry> {
    var p := LowerBound(less, c, e.key);
    c[..p] + [e] + c[p..]
  }

  ghost function SpecLookup(less: Less, c: seq<Entry>, key: Bytes): Option<Entry> {
    var p := LowerBound(less, c, key);
    if p < |c| then Some(c[p]) else None
  }

  /** The entries after inserting `es` one by one. */
  ghost function InsertAll(less: Less, es: seq<Entry>): seq<Entry> {
    if es == [] then [] else SpecInsert(less, InsertAll(less, es[..|es| - 1]), es[|es| - 1])
  }

  lemma {:induction false} InsertAllAppend(less: Less, es: seq<Entry>, e: Entry)
    ensures InsertAll(less, es + [e]) == SpecInsert(less, InsertAll(less, es), e)
  {
    assert (es + [e])[..|es|] == es;
  }

  /** Inserting adds nothing but what is inserted. */
  lemma {:induction false} InsertAllElements(less: Less, es: seq<Entry>)
    ensures |InsertAll(less, es)| == |es|
    ensures forall i | 0 <= i < |es| :: InsertAll(less, es)[i] in es
  {
    if es != [] {
      var before, e := es[..|es| - 1], es[|es| - 1];
      InsertAllElements(less, before);
      var c := InsertAll(less, before);
      var p := LowerBound(less, c, e.key);
      forall i | 0 <= i < |es|
        ensures (c[..p] + [e] + c[p..])[i] in es
      {
        if i != p {
          assert (c[..p] + [e] + c[p..])[i] == c[if i < p then i else i - 1];
        }
      }
    }
  }

  /** The result of executing the log sequentially, or `None` if a recorded answer is wrong. */
  ghost function Replay(less: Less, log: seq<Event>): Option<seq<Entry>> {
    if log == [] then Some([])
    else
      match Replay(less, log[..|log| - 1])
      case None => None
      case Some(c) => Apply(less, c, log[|log| - 1])
  }

  ghost function Apply(less: Less, c: seq<Entry>, e: Event): Option<seq<Entry>> {
    match e
    case Inserted(_, entry) => Some(SpecInsert(less, c, entry))
    case LookedUp(_, key, result) => if result == SpecLookup(less, c, key) then Some(c) else None
  }

  lemma {:induction false} ReplayAppend(less: Less, log: seq<Event>, e: Event)
    ensures Replay(less, log + [e]) == match Replay(less, log) case None => None case Some(c) => Apply(less, c, e)
  {
    assert (log + [e])[..|log|] == log;
  }

  lemma {:induction false} ReplayPrefix(less: Less, log: seq<Event>, k: nat)
    requires k <= |log| && Replay(less, log).Some?
    ensures Replay(less, log[..k]).Some?
  {
    if k == |log| {
      assert log[..k] == log;
    } else {
      var before := log[..|log| - 1];
      assert log[..k] == before[..k];
      ReplayPrefix(less, before, k);
    }
  }

  /** `LowerBound` is the only place where the sequence splits into "before" and "not before". */
  lemma {:induction false} LowerBoundUnique(less: Less, c: seq<Entry>, key: Bytes, p: nat)
    requires p <= |c|
    requires forall i | 0 <= i < p :: less(c[i].key, key)
    requires p < |c| ==> !less(c[p].key, key)
    ensures LowerBound(less, c, key) == p
  {
    if p > 0 {
      assert forall i | 0 <= i < p - 1 :: c[1..][i] == c[i + 1];
      LowerBoundUnique(less, c[1..], key, p - 1);
    }
  }

  /** The entries of the base row, in order. */
  ghost function Content(h: Heap): seq<Entry>
    requires Shape(h) && RowOk(h, 0)
  {
    seq(|h.rows[0]| - 1, i requires 0 <= i < |h.rows[0]| - 1 =>
        Entry(h.nodes[h.rows[0][i + 1]].key, h.nodes[h.rows[0][i + 1]].value))
  }

  /** A base-level predecessor whose follower is not before `key` gives the lower bound. */
  lemma {:induction false} PositionIsLowerBound(h: Heap, p: nat, key: Bytes)
    requires Inv(h) && p < |h.rows[0]| && PredOk(h, 0, key, h.rows[0][p])
    requires After(h.rows[0], p) != NULL ==> SuccOk(h, 0, key, After(h.rows[0], p))
    ensures RowOk(h, 0) && LowerBound(h.less, Content(h), key) == p
  {
    assert RowOk(h, 0);
    RowSplits(h, 0, p, key);
    LowerBoundUnique(h.less, Content(h), key, p);
  }

  /** Linking at the base level inserts the node's entry at its lower bound. */
  lemma {:induction false} LinkInserts(h: Heap, p: nat, node: int)
    requires CanLink(h, 0, p, node)
    ensures RowOk(h, 0) && Inv(LinkAfter(h, 0, p, node)) && RowOk(LinkAfter(h, 0, p, node), 0)
    ensures Content(LinkAfter(h, 0, p, node))
         == SpecInsert(h.less, Content(h), Entry(h.nodes[node].key, h.nodes[node].value))
  {
    LinkKeepsInv(h, 0, p, node);
    PositionIsLowerBound(h, p, h.nodes[node].key);
    assert RowOk(LinkAfter(h, 0, p, node), 0);
    LinkContent(h, LinkAfter(h, 0, p, node), p, node);
  }

  lemma {:induction false} LinkContent(h: Heap, h': Heap, p: nat, node: int)
    requires Shape(h) && Shape(h') && RowOk(h, 0) && RowOk(h', 0) && p < |h.rows[0]|
    requires h'.nodes == h.nodes && h'.rows[0] == InsertAt(h.rows[0], p + 1, node) && 0 <= node < |h.nodes|
    ensures Content(h') == Content(h)[..p] + [Entry(h.nodes[node].key, h.nodes[node].value)] + Content(h)[p..]
  {
    var c, c', e := Content(h), Content(h'), Entry(h.nodes[node].key, h.nodes[node].value);
    forall i | 0 <= i < |c'|
      ensures c'[i] == (c[..p] + [e] + c[p..])[i]
    {
      assert h'.rows[0][i + 1] == if i < p then h.rows[0][i + 1] else if i == p then node else h.rows[0][i];
    }
  }
}
