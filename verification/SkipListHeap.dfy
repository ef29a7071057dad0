/**
  The shared memory of the skip list: an append-only table of nodes, one tower of `next` pointers
  per node, and `max_level`.  Node 0 is the sentinel.  `rows` is the abstract value: `rows[l]`
  lists, sentinel first, the nodes that have been linked at level `l`; `Inv` says that following the
  real pointers visits exactly that list.
 */
module SkipListHeap {
  import opened Basics
  import opened Lists

  const HEAD := 0
  const MAX_HEIGHT := 8

  /** `Comparator::compare(a, b) == Less`. */
  type Less = (Bytes, Bytes) -> bool

  /** The order laws at three keys: irreflexive, transitive, and "not less" transitive. */
  ghost predicate OrderLaws(less: Less, a: Bytes, b: Bytes, c: Bytes) {
    && !less(a, a)
    && (less(a, b) && less(b, c) ==> less(a, c))
    && (!less(a, b) && !less(b, c) ==> !less(a, c))
  }

  /** What the list needs of a comparator: a strict weak order. */
  ghost predicate StrictWeakOrder(less: Less) {
    forall a, b, c :: OrderLaws(less, a, b, c)
  }

  datatype Node = Node(key: Bytes, value: Bytes, height: nat)

  datatype Heap = Heap(less: Less, nodes: seq<Node>, next: seq<seq<int>>, maxLevel: nat, rows: seq<seq<int>>)

  ghost function EmptyHeap(less: Less): Heap {
    Heap(less, [Node([], [], MAX_HEIGHT)], [seq(MAX_HEIGHT, _ => NULL)], 1, seq(MAX_HEIGHT, _ => [HEAD]))
  }

  // ---------- Tower accesses ----------

  /** The cell `tower[level]` of `node` exists. */
  ghost predicate InTower(h: Heap, node: int, level: int) {
    && 0 <= node < |h.nodes| && 0 <= level < h.nodes[node].height
    && node < |h.next| && level < |h.next[node]|
  }

  ghost function Load(h: Heap, node: int, level: int): int {
    if InTower(h, node, level) then h.next[node][level] else NULL
  }

  ghost function StoreCell(h: Heap, node: int, level: int, v: int): Heap {
    if InTower(h, node, level) then h.(next := h.next[node := h.next[node][level := v]]) else h
  }

  ghost function AllocNode(h: Heap, node: Node): Heap {
    h.(nodes := h.nodes + [node], next := h.next + [seq(node.height, _ => NULL)])
  }

  ghost function InsertAt(row: seq<int>, p: nat, x: int): seq<int>
    requires p <= |row|
  {
    row[..p] + [x] + row[p..]
  }

  /** Records that `node` now follows position `p` of row `level`. */
  ghost function LinkAfter(h: Heap, level: int, p: nat, node: int): Heap
    requires 0 <= level < |h.rows| && p < |h.rows[level]|
  {
    StoreCell(h, h.rows[level][p], level, node)
      .(rows := h.rows[level := InsertAt(h.rows[level], p + 1, node)])
  }

  // ---------- Invariant ----------

  ghost predicate Shape(h: Heap) {
    && 1 <= |h.nodes| == |h.next| && h.nodes[HEAD].height == MAX_HEIGHT
    && (forall n | 0 <= n < |h.nodes| :: 1 <= h.nodes[n].height <= MAX_HEIGHT && |h.next[n]| == h.nodes[n].height)
    && |h.rows| == MAX_HEIGHT && 1 <= h.maxLevel <= MAX_HEIGHT
  }

  ghost predicate Members(h: Heap, level: int, row: seq<int>)
    requires Shape(h)
  {
    && 1 <= |row| && row[0] == HEAD
    && (forall i | 0 <= i < |row| :: 0 <= row[i] < |h.nodes| && level < h.nodes[row[i]].height)
    && (forall i | 1 <= i < |row| :: h.nodes[row[i]].height <= h.maxLevel)
  }

  ghost predicate PointsOn(h: Heap, level: int, row: seq<int>, i: int)
    requires 0 <= i < |row| && 0 <= row[i] < |h.next| && 0 <= level < |h.next[row[i]]|
  {
    h.next[row[i]][level] == After(row, i)
  }

  /** Following `next` at `level` from the sentinel visits `row` and ends in null. */
  ghost predicate Follows(h: Heap, level: int, row: seq<int>)
    requires Shape(h) && 0 <= level && Members(h, level, row)
  {
    forall i | 0 <= i < |row| :: PointsOn(h, level, row, i)
  }

  ghost predicate InOrder(h: Heap, row: seq<int>, i: int, j: int)
    requires 0 <= i < |row| && 0 <= j < |row| && 0 <= row[i] < |h.nodes| && 0 <= row[j] < |h.nodes|
  {
    !h.less(h.nodes[row[j]].key, h.nodes[row[i]].key)
  }

  ghost predicate Sorted(h: Heap, row: seq<int>)
    requires forall i | 0 <= i < |row| :: 0 <= row[i] < |h.nodes|
  {
    forall i, j | 1 <= i < j < |row| :: InOrder(h, row, i, j)
  }

  ghost predicate RowOk(h: Heap, level: int)
    requires Shape(h) && 0 <= level < MAX_HEIGHT
  {
    var row := h.rows[level];
    Members(h, level, row) && Follows(h, level, row) && Distinct(row) && Sorted(h, row)
  }

  /** Every node of row `level` is also in the row below it. */
  ghost predicate RowBelow(h: Heap, level: int)
    requires |h.rows| == MAX_HEIGHT && 1 <= level < MAX_HEIGHT
  {
    forall n | n in h.rows[level] :: n in h.rows[level - 1]
  }

  ghost predicate Nested(h: Heap)
    requires |h.rows| == MAX_HEIGHT
  {
    forall l | 1 <= l < MAX_HEIGHT :: RowBelow(h, l)
  }

  ghost predicate Inv(h: Heap) {
    && StrictWeakOrder(h.less) && Shape(h) && Nested(h)
    && (forall l | 0 <= l < MAX_HEIGHT :: RowOk(h, l))
  }

  /** `p` is linked at `level` and sorts strictly before `key` (or is the sentinel). */
  ghost predicate PredOk(h: Heap, level: int, key: Bytes, p: int)
    requires Shape(h) && 0 <= level < MAX_HEIGHT
  {
    p in h.rows[level] && 0 <= p < |h.nodes| && (p == HEAD || h.less(h.nodes[p].key, key))
  }

  /** `v` is linked at `level` and does not sort before `key`. */
  ghost predicate SuccOk(h: Heap, level: int, key: Bytes, v: int)
    requires Shape(h) && 0 <= level < MAX_HEIGHT
  {
    v in h.rows[level] && 0 < v < |h.nodes| && !h.less(h.nodes[v].key, key)
  }

  lemma {:induction false} EmptyHeapInv(less: Less)
    requires StrictWeakOrder(less)
    ensures Inv(EmptyHeap(less))
  {
    var h := EmptyHeap(less);
    assert forall l | 0 <= l < MAX_HEIGHT :: h.rows[l] == [HEAD];
  }

  /** The position of a linked node in its row. */
  lemma Position(row: seq<int>, n: int) returns (p: nat)
    requires n in row
    ensures p < |row| && row[p] == n
  {
    p :| p < |row| && row[p] == n;
  }

  // ---------- Linking a node at one level ----------

  lemma {:induction false} InsertAtMember(row: seq<int>, p: nat, x: int, n: int)
    requires p <= |row|
    ensures n in InsertAt(row, p, x) <==> n == x || n in row
  {
    assert row == row[..p] + row[p..];
  }

  lemma {:induction false} InsertDistinct(row: seq<int>, p: nat, x: int)
    requires p <= |row| && Distinct(row) && x !in row
    ensures Distinct(InsertAt(row, p, x))
  {
    var row' := InsertAt(row, p, x);
    forall i, j | 0 <= i < |row'| && 0 <= j < |row'|
      ensures Apart(row', i, j)
    {
      var i0 := if i < p then i else if i == p then 0 else i - 1;
      var j0 := if j < p then j else if j == p then 0 else j - 1;
      assert i != p && j != p ==> Apart(row, i0, j0);
      assert row'[i] == if i < p then row[i] else if i == p then x else row[i - 1];
      assert row'[j] == if j < p then row[j] else if j == p then x else row[j - 1];
    }
  }

  lemma {:induction false} StoreCellFrame(h: Heap, node: int, level: int, v: int)
    requires Shape(h) && InTower(h, node, level)
    ensures var h' := StoreCell(h, node, level, v);
      && Shape(h')
      && (forall m, k | InTower(h, m, k) :: InTower(h', m, k)
                                            && h'.next[m][k] == if m == node && k == level then v else h.next[m][k])
  {
  }

  lemma {:induction false} SpliceMembers(h: Heap, level: int, p: nat, node: int)
    requires Shape(h) && 0 <= level < MAX_HEIGHT && p < |h.rows[level]|
    requires Members(h, level, h.rows[level])
    requires 0 < node < |h.nodes| && level < h.nodes[node].height <= h.maxLevel
    ensures Members(h, level, InsertAt(h.rows[level], p + 1, node))
  {
    var row := h.rows[level];
    var row' := InsertAt(row, p + 1, node);
    forall k | 0 <= k < |row'|
      ensures row'[k] == node || row'[k] in row
      ensures k == 0 ==> row'[k] == row[0]
    {
      SpliceAt(row, p, node, k);
    }
  }

  lemma {:induction false} SpliceAt(row: seq<int>, p: nat, node: int, k: nat)
    requires p < |row| && k <= |row|
    ensures var row' := InsertAt(row, p + 1, node);
      |row'| == |row| + 1 && row'[k] == if k <= p then row[k] else if k == p + 1 then node else row[k - 1]
  {
  }

  /** Splicing `node` after position `p` of a followed row, when it already points where `row[p]` does. */
  lemma {:induction false} SpliceFollows(h: Heap, level: int, p: nat, node: int)
    requires Shape(h) && 0 <= level < MAX_HEIGHT && p < |h.rows[level]|
    requires Members(h, level, h.rows[level]) && Follows(h, level, h.rows[level]) && Distinct(h.rows[level])
    requires 0 < node < |h.nodes| && level < h.nodes[node].height <= h.maxLevel && node !in h.rows[level]
    requires h.next[node][level] == After(h.rows[level], p)
    ensures var h' := LinkAfter(h, level, p, node);
      Shape(h') && Members(h', level, h'.rows[level]) && Follows(h', level, h'.rows[level])
  {
    SpliceMembers(h, level, p, node);
    var h' := LinkAfter(h, level, p, node);
    var row' := h'.rows[level];
    forall i | 0 <= i < |row'|
      ensures PointsOn(h', level, row', i)
    {
      SplicePoints(h, level, p, node, i);
    }
  }

  lemma {:induction false} SplicePoints(h: Heap, level: int, p: nat, node: int, i: nat)
    requires Shape(h) && 0 <= level < MAX_HEIGHT && p < |h.rows[level]| && i <= |h.rows[level]|
    requires Members(h, level, h.rows[level]) && Follows(h, level, h.rows[level]) && Distinct(h.rows[level])
    requires 0 < node < |h.nodes| && level < h.nodes[node].height <= h.maxLevel && node !in h.rows[level]
    requires h.next[node][level] == After(h.rows[level], p)
    ensures var h' := LinkAfter(h, level, p, node); var row' := h'.rows[level];
      && |row'| == |h.rows[level]| + 1 && 0 <= row'[i] < |h'.next| && level < |h'.next[row'[i]]|
      && PointsOn(h', level, row', i)
  {
    if i == p + 1 {
      StoreCellFrame(h, h.rows[level][p], level, node);
      assert InTower(h, node, level);
    } else {
      OldPoints(h, level, p, node, i);
    }
  }

  lemma {:induction false} OldPoints(h: Heap, level: int, p: nat, node: int, i: nat)
    requires Shape(h) && 0 <= level < MAX_HEIGHT && p < |h.rows[level]| && i <= |h.rows[level]| && i != p + 1
    requires Members(h, level, h.rows[level]) && Follows(h, level, h.rows[level]) && Distinct(h.rows[level])
    requires 0 < node < |h.nodes| && node !in h.rows[level]
    ensures var h' := LinkAfter(h, level, p, node); var row' := h'.rows[level];
      && |row'| == |h.rows[level]| + 1 && 0 <= row'[i] < |h'.next| && level < |h'.next[row'[i]]|
      && PointsOn(h', level, row', i)
  {
    var row := h.rows[level];
    StoreCellFrame(h, row[p], level, node);
    var k := if i <= p then i else i - 1;
    assert PointsOn(h, level, row, k) && Apart(row, k, p) && InTower(h, row[k], level);
  }

  /** Splicing `node` between keys that do not sort after it and keys that do not sort before it. */
  lemma {:induction false} SpliceSorted(h: Heap, row: seq<int>, p: nat, node: int)
    requires p < |row| && 0 < node < |h.nodes|
    requires forall i | 0 <= i < |row| :: 0 <= row[i] < |h.nodes|
    requires Sorted(h, row)
    requires forall i | 1 <= i <= p :: !h.less(h.nodes[node].key, h.nodes[row[i]].key)
    requires forall i | p < i < |row| :: !h.less(h.nodes[row[i]].key, h.nodes[node].key)
    ensures var row' := InsertAt(row, p + 1, node);
      (forall i | 0 <= i < |row'| :: 0 <= row'[i] < |h.nodes|) && Sorted(h, row')
  {
    var row' := InsertAt(row, p + 1, node);
    forall i | 0 <= i < |row'|
      ensures 0 <= row'[i] < |h.nodes|
    {
      SpliceAt(row, p, node, i);
    }
    forall i, j | 1 <= i < j < |row'|
      ensures InOrder(h, row', i, j)
    {
      SpliceInOrder(h, row, p, node, i, j);
    }
  }

  lemma {:induction false} SpliceInOrder(h: Heap, row: seq<int>, p: nat, node: int, i: nat, j: nat)
    requires p < |row| && 0 < node < |h.nodes| && 1 <= i < j <= |row|
    requires forall i | 0 <= i < |row| :: 0 <= row[i] < |h.nodes|
    requires Sorted(h, row)
    requires forall i | 1 <= i <= p :: !h.less(h.nodes[node].key, h.nodes[row[i]].key)
    requires forall i | p < i < |row| :: !h.less(h.nodes[row[i]].key, h.nodes[node].key)
    ensures var row' := InsertAt(row, p + 1, node);
      0 <= row'[i] < |h.nodes| && 0 <= row'[j] < |h.nodes| && InOrder(h, row', i, j)
  {
    SpliceAt(row, p, node, i);
    SpliceAt(row, p, node, j);
    var i0 := if i <= p then i else i - 1;
    var j0 := if j <= p then j else j - 1;
    assert 1 <= i0 < j0 ==> InOrder(h, row, i0, j0);
  }

  /** Where `row[p]` sorts before `key` and its follower does not, the whole row splits there. */
  lemma {:induction false} RowSplits(h: Heap, level: int, p: nat, key: Bytes)
    requires StrictWeakOrder(h.less) && Shape(h) && 0 <= level < MAX_HEIGHT && RowOk(h, level)
    requires p < |h.rows[level]| && PredOk(h, level, key, h.rows[level][p])
    requires After(h.rows[level], p) != NULL ==> SuccOk(h, level, key, After(h.rows[level], p))
    ensures forall i | 1 <= i <= p ::
        h.less(h.nodes[h.rows[level][i]].key, key) && !h.less(key, h.nodes[h.rows[level][i]].key)
    ensures forall i | p < i < |h.rows[level]| :: !h.less(h.nodes[h.rows[level][i]].key, key)
  {
    var row := h.rows[level];
    forall i | 1 <= i <= p
      ensures h.less(h.nodes[row[i]].key, key) && !h.less(key, h.nodes[row[i]].key)
    {
      assert Apart(row, 0, p);
      assert i < p ==> InOrder(h, row, i, p);
      var k := h.nodes[row[i]].key;
      assert OrderLaws(h.less, h.nodes[row[p]].key, k, key);
      assert OrderLaws(h.less, k, key, k);
    }
    forall i | p < i < |row|
      ensures !h.less(h.nodes[row[i]].key, key)
    {
      assert i > p + 1 ==> InOrder(h, row, p + 1, i);
      assert OrderLaws(h.less, h.nodes[row[i]].key, h.nodes[row[p + 1]].key, key);
    }
  }

  ghost predicate CanLink(h: Heap, level: int, p: nat, node: int) {
    && Inv(h) && 0 <= level < MAX_HEIGHT && p < |h.rows[level]|
    && 0 < node < |h.nodes| && level < h.nodes[node].height <= h.maxLevel
    && node !in h.rows[level]
    && (level > 0 ==> node in h.rows[level - 1])
    && PredOk(h, level, h.nodes[node].key, h.rows[level][p])
    && h.next[node][level] == After(h.rows[level], p)
    && (After(h.rows[level], p) != NULL ==> SuccOk(h, level, h.nodes[node].key, After(h.rows[level], p)))
  }

  lemma {:induction false} LinkKeepsRow(h: Heap, level: int, p: nat, node: int)
    requires CanLink(h, level, p, node)
    ensures var h' := LinkAfter(h, level, p, node);
      Shape(h') && RowOk(h', level)
  {
    assert RowOk(h, level);
    LinkSorts(h, level, p, node);
    SpliceFollows(h, level, p, node);
    InsertDistinct(h.rows[level], p + 1, node);
    SortedTransfers(h, LinkAfter(h, level, p, node), InsertAt(h.rows[level], p + 1, node));
  }

  lemma {:induction false} LinkSorts(h: Heap, level: int, p: nat, node: int)
    requires CanLink(h, level, p, node)
    ensures var row' := InsertAt(h.rows[level], p + 1, node);
      (forall i | 0 <= i < |row'| :: 0 <= row'[i] < |h.nodes|) && Sorted(h, row')
  {
    assert RowOk(h, level);
    RowSplits(h, level, p, h.nodes[node].key);
    SpliceSorted(h, h.rows[level], p, node);
  }

  lemma {:induction false} SortedTransfers(h: Heap, h': Heap, row: seq<int>)
    requires h'.less == h.less && h.nodes <= h'.nodes
    requires forall i | 0 <= i < |row| :: 0 <= row[i] < |h.nodes|
    requires Sorted(h, row)
    ensures Sorted(h', row)
  {
    forall i, j | 1 <= i < j < |row|
      ensures InOrder(h', row, i, j)
    {
      assert InOrder(h, row, i, j);
    }
  }

  /** Linking at one level keeps the whole heap invariant. */
  lemma {:induction false} LinkKeepsInv(h: Heap, level: int, p: nat, node: int)
    requires CanLink(h, level, p, node)
    ensures Inv(LinkAfter(h, level, p, node))
  {
    var h' := LinkAfter(h, level, p, node);
    LinkKeepsRow(h, level, p, node);
    assert RowOk(h, level);
    forall l | 0 <= l < MAX_HEIGHT && l != level
      ensures RowOk(h', l)
    {
      assert RowOk(h, l) && h'.rows[l] == h.rows[l];
      StoreCellFrame(h, h.rows[level][p], level, node);
      var row := h.rows[l];
      forall i | 0 <= i < |row|
        ensures PointsOn(h', l, row, i)
      {
        assert PointsOn(h, l, row, i) && InTower(h, row[i], l);
      }
      SortedTransfers(h, h', row);
    }
    forall l | 1 <= l < MAX_HEIGHT
      ensures RowBelow(h', l)
    {
      assert RowBelow(h, l);
      forall n | n in h'.rows[l]
        ensures n in h'.rows[l - 1]
      {
        InsertAtMember(h.rows[level], p + 1, node, n);
      }
    }
  }

  // ---------- Steps that do not touch linked cells ----------

  /** Cells of linked nodes keep their value; the node table and `maxLevel` only grow. */
  ghost predicate Extends(h: Heap, h': Heap)
    requires Shape(h)
  {
    && h'.less == h.less && h'.rows == h.rows && Shape(h')
    && h.maxLevel <= h'.maxLevel
    && h.nodes <= h'.nodes
    && (forall l, n | 0 <= l < MAX_HEIGHT && n in h.rows[l] && InTower(h, n, l) :: h'.next[n][l] == h.next[n][l])
  }

  lemma {:induction false} ExtendsTransitive(h: Heap, h': Heap, h'': Heap)
    requires Inv(h) && Extends(h, h') && Extends(h', h'')
    ensures Extends(h, h'')
  {
    forall l, n | 0 <= l < MAX_HEIGHT && n in h.rows[l] && InTower(h, n, l)
      ensures h''.next[n][l] == h.next[n][l]
    {
      assert InTower(h', n, l);
    }
  }

  lemma {:induction false} ExtendKeepsInv(h: Heap, h': Heap)
    requires Inv(h) && Extends(h, h')
    ensures Inv(h')
  {
    forall l | 1 <= l < MAX_HEIGHT
      ensures RowBelow(h', l)
    {
      assert RowBelow(h, l);
    }
    forall l | 0 <= l < MAX_HEIGHT
      ensures RowOk(h', l)
    {
      assert RowOk(h, l);
      var row := h.rows[l];
      forall i | 0 <= i < |row|
        ensures PointsOn(h', l, row, i)
      {
        assert PointsOn(h, l, row, i) && row[i] in row && InTower(h, row[i], l);
      }
      SortedTransfers(h, h', row);
    }
  }
}
