/**
  The skip list's own code, run by one thread: the search, the compare-exchange retry loops and the
  iterator, over the same memory as the step system.  Its meaning is the sorted sequence of
  `SkipListSpec`.
 */
module SkipList {
  import opened Basics
  import opened Lists
  import opened SkipListHeap
  import opened SkipListMachine
  import opened SkipListSpec
  import opened SkipListInvariant
  import opened SkipListFrame
  import opened SkipListSteps

  class List {
    const less: Less
    var nodes: seq<Node>
    var next: seq<seq<int>>
    var maxLevel: nat
    ghost var rows: seq<seq<int>>

    ghost function Memory(): Heap
      reads this
    {
      Heap(less, nodes, next, maxLevel, rows)
    }

    ghost predicate Valid()
      reads this
    {
      Inv(Memory()) && RowOk(Memory(), 0)
    }

    /** The entries of the list in order. */
    ghost function Entries(): seq<Entry>
      requires Valid()
      reads this
    {
      Content(Memory())
    }

    constructor (less: Less)
      requires StrictWeakOrder(less)
      ensures Valid() && this.less == less && Entries() == []
    {
      this.less := less;
      nodes := [Node([], [], MAX_HEIGHT)];
      next := [seq(MAX_HEIGHT, _ => NULL)];
      maxLevel := 1;
      rows := seq(MAX_HEIGHT, _ => [HEAD]);
      new;
      assert Memory() == EmptyHeap(less);
      EmptyHeapInv(less);
      assert RowOk(Memory(), 0);
    }

    method Search(key: Bytes) returns (ctx: Ctx)
      requires Valid()
      ensures CtxOk(Memory(), key, ctx, 0) && FreshFrom(Memory(), ctx, 0)
      ensures EntryAt(Memory(), ctx.succs[0]) == SpecLookup(less, Entries(), key)
    {
      ghost var h := Memory();
      ctx := Ctx(seq(MAX_HEIGHT, _ => HEAD), seq(MAX_HEIGHT, _ => NULL));
      FreshCtxOk(h, key);
      var level := SkipEmptyLevels();
      var pred := HEAD;
      assert level >= 1 ==> RowOk(h, level - 1) && PredOk(h, level - 1, key, h.rows[level - 1][0]);
      while level >= 1
        invariant 0 <= level <= MAX_HEIGHT
        invariant CtxOk(h, key, ctx, level) && FreshFrom(h, ctx, level)
        invariant level >= 1 ==> PredOk(h, level - 1, key, pred)
      {
        level := level - 1;
        var curr;
        pred, curr := WalkRight(key, level, pred);
        ghost var ctx0 := ctx;
        ctx := Ctx(ctx.preds[level := pred], ctx.succs[level := curr]);
        WalkLoads(h, key, Lookup, level, pred);
        RecordCtx(h, key, ctx0, level, pred);
        assert level >= 1 ==> RowBelow(h, level);
      }
      assert CtxAt(h, key, ctx, 0) && FreshAt(h, ctx, 0);
      LookupIsCorrect(h, key, ctx);
    }

    /** Lowers the starting level past levels on which the sentinel points nowhere. */
    method SkipEmptyLevels() returns (level: nat)
      requires Valid()
      ensures level <= maxLevel && FreshFrom(Memory(), FreshCtx(), level)
    {
      ghost var h := Memory();
      level := maxLevel;
      forall l | level <= l < MAX_HEIGHT
        ensures FreshAt(h, FreshCtx(), l)
      {
        EmptyAbove(h, l);
      }
      while level > 0 && next[HEAD][level - 1] == NULL
        invariant level <= maxLevel && FreshFrom(h, FreshCtx(), level)
      {
        assert FreshAt(h, FreshCtx(), level - 1);
        level := level - 1;
      }
    }

    /** Moves right at one level while the next node sorts before `key`. */
    method WalkRight(key: Bytes, level: nat, start: int) returns (pred: int, curr: int)
      requires Valid() && level < MAX_HEIGHT && PredOk(Memory(), level, key, start)
      ensures PredOk(Memory(), level, key, pred) && curr == Load(Memory(), pred, level)
      ensures curr != NULL ==> SuccOk(Memory(), level, key, curr)
    {
      ghost var h := Memory();
      pred := start;
      WalkLoads(h, key, Lookup, level, pred);
      curr := next[pred][level];
      while curr != NULL && less(nodes[curr].key, key)
        invariant PredOk(h, level, key, pred) && curr == Load(h, pred, level)
        invariant curr != NULL ==> curr in h.rows[level] && 0 < curr < |h.nodes|
        decreases |h.rows[level]| - (if pred in h.rows[level] then IndexOf(h.rows[level], pred) else 0)
      {
        NextIndex(h, level, pred);
        pred := curr;
        WalkLoads(h, key, Lookup, level, pred);
        curr := next[pred][level];
      }
    }

    // ---------- Inserting ----------

    /** The draw of `generate_random_level` from a random word with `zeros` trailing zeros.  The
        lowering loop tests the address of a sentinel slot, which is never null, so it always runs
        down: no node is taller than 3. */
    static method DrawHeight(zeros: nat) returns (height: nat)
      ensures 1 <= height <= 3 && (height < 3 ==> height == zeros + 1) && (height == 3 <==> zeros >= 2)
    {
      height := if zeros + 1 < MAX_HEIGHT then zeros + 1 else MAX_HEIGHT;
      while height >= 4
        invariant 1 <= height <= MAX_HEIGHT
        invariant height < 3 ==> height == zeros + 1
        invariant height >= 3 <==> zeros >= 2
      {
        height := height - 1;
      }
    }

    /** `generate_random_level` after the draw: `max_level` is raised to the height if needed. */
    method RaiseLevel(height: nat)
      requires Valid() && 1 <= height <= MAX_HEIGHT
      modifies this`maxLevel
      ensures Valid() && Entries() == old(Entries()) && Extends(old(Memory()), Memory())
      ensures maxLevel == if height > old(maxLevel) then height else old(maxLevel)
    {
      ghost var h := Memory();
      var seen := maxLevel;
      if height > seen {
        maxLevel := height;
        ExtendKeepsInv(h, Memory());
        ExtendsContent(h, Memory());
      }
    }

    /** Allocates a node with an empty tower and writes its key and value. */
    method Alloc(key: Bytes, value: Bytes, height: nat) returns (node: int)
      requires Valid() && 1 <= height <= maxLevel
      modifies this`nodes, this`next
      ensures Valid() && Entries() == old(Entries()) && Extends(old(Memory()), Memory())
      ensures node == |old(nodes)| && OwnOk(Memory(), node, 0) && nodes == old(nodes) + [Node(key, value, height)]
      ensures next[node][0] == NULL
    {
      ghost var h := Memory();
      node := |nodes|;
      nodes := nodes + [Node(key, value, height)];
      next := next + [seq(height, _ => NULL)];
      AllocExtends(h, Node(key, value, height));
      ExtendsContent(h, Memory());
    }

    /** Raises `max_level` first, so that no node is ever taller than it. */
    method NewNode(key: Bytes, value: Bytes, height: nat) returns (node: int)
      requires Valid() && 1 <= height <= MAX_HEIGHT
      modifies this`maxLevel, this`nodes, this`next
      ensures Valid() && Entries() == old(Entries()) && Extends(old(Memory()), Memory())
      ensures node == |old(nodes)| && OwnOk(Memory(), node, 0) && nodes == old(nodes) + [Node(key, value, height)]
      ensures next[node][0] == NULL
    {
      ghost var h := Memory();
      RaiseLevel(height);
      ghost var h' := Memory();
      node := Alloc(key, value, height);
      ExtendsTransitive(h, h', Memory());
    }

    /** The retry loop that links `node` at `level`, searching again after a lost compare-exchange. */
    method LinkAt(node: int, level: nat, start: Ctx) returns (ctx: Ctx)
      requires Valid() && OwnOk(Memory(), node, level) && CtxOk(Memory(), nodes[node].key, start, level)
      requires next[node][level] == NULL
      modifies this`next, this`rows
      ensures Valid() && maxLevel == old(maxLevel) && nodes == old(nodes)
      ensures Entries() == AfterLink(less, old(Entries()), nodes[node], level)
      ensures level + 1 < nodes[node].height ==> OwnOk(Memory(), node, level + 1) && next[node][level + 1] == NULL
                                                 && CtxOk(Memory(), nodes[node].key, ctx, level + 1)
      ensures node in rows[level]
    {
      ctx := start;
      var linked := false;
      while !linked
        invariant nodes == old(nodes) && maxLevel == old(maxLevel) && Valid()
        invariant !linked ==> Entries() == old(Entries()) && OwnOk(Memory(), node, level)
        invariant !linked ==> CtxOk(Memory(), nodes[node].key, ctx, level)
        invariant !linked && next[node][level] != NULL ==> ctx.succs[level] != NULL
        invariant linked ==> Entries() == AfterLink(less, old(Entries()), nodes[node], level)
        invariant linked ==> node in rows[level]
        invariant linked && level + 1 < nodes[node].height ==>
            OwnOk(Memory(), node, level + 1) && next[node][level + 1] == NULL
                && CtxOk(Memory(), nodes[node].key, ctx, level + 1)
        decreases if linked then 0 else if FreshAt(Memory(), ctx, level) then 1 else 2
      {
        StoreSuccessor(node, level, ctx);
        linked := CompareExchange(node, level, ctx);
        if !linked {
          ctx := Search(nodes[node].key);
          SlotStaysCovered(Memory(), node, level, ctx);
        }
      }
    }

    /** Points the unlinked node at the successor the search found, if there is one. */
    method StoreSuccessor(node: int, level: nat, ctx: Ctx)
      requires Valid() && OwnOk(Memory(), node, level) && CtxOk(Memory(), nodes[node].key, ctx, level)
      requires next[node][level] != NULL ==> ctx.succs[level] != NULL
      modifies this`next
      ensures Valid() && Entries() == old(Entries()) && OwnOk(Memory(), node, level)
      ensures CtxOk(Memory(), nodes[node].key, ctx, level) && next[node][level] == ctx.succs[level]
      ensures FreshAt(Memory(), ctx, level) <==> old(FreshAt(Memory(), ctx, level))
    {
      ghost var h := Memory();
      assert CtxAt(h, nodes[node].key, ctx, level) && OwnAt(h, node, level, level);
      var succ := ctx.succs[level];
      if succ != NULL {
        next := next[node := next[node][level := succ]];
        StoreExtends(h, node, level, succ);
        ExtendsCtx(h, Memory(), nodes[node].key, ctx, level);
        ExtendsContent(h, Memory());
      }
    }

    /** Makes the predecessor point to `node` if it still points to the recorded successor. */
    method CompareExchange(node: int, level: nat, ctx: Ctx) returns (ok: bool)
      requires Valid() && OwnOk(Memory(), node, level) && CtxOk(Memory(), nodes[node].key, ctx, level)
      requires next[node][level] == ctx.succs[level]
      modifies this`next, this`rows
      ensures Valid() && ok == old(FreshAt(Memory(), ctx, level))
      ensures !ok ==> Memory() == old(Memory())
      ensures ok ==> Entries() == AfterLink(less, old(Entries()), nodes[node], level)
      ensures ok ==> node in rows[level]
      ensures ok && level + 1 < nodes[node].height ==> OwnOk(Memory(), node, level + 1) && next[node][level + 1] == NULL
                                                       && CtxOk(Memory(), nodes[node].key, ctx, level + 1)
    {
      ghost var h := Memory();
      assert CtxAt(h, nodes[node].key, ctx, level);
      var pred := ctx.preds[level];
      WalkLoads(h, nodes[node].key, Lookup, level, pred);
      ok := next[pred][level] == ctx.succs[level];
      if ok {
        next := next[pred := next[pred][level := node]];
        rows := rows[level := InsertAt(rows[level], IndexOf(rows[level], pred) + 1, node)];
        assert Memory() == LinkNode(h, level, pred, node);
        LinkEffect(h, node, level, ctx);
      }
    }

    /** `insert`: search, then allocate, then link from the bottom up. */
    method Insert(key: Bytes, value: Bytes, height: nat) returns (node: int)
      requires Valid() && 1 <= height <= MAX_HEIGHT
      modifies this
      ensures Valid() && Entries() == SpecInsert(less, old(Entries()), Entry(key, value))
      ensures node == |old(nodes)| && nodes == old(nodes) + [Node(key, value, height)]
      ensures forall l | 0 <= l < height :: node in rows[l]
    {
      var ctx := Search(key);
      ghost var h := Memory();
      node := NewNode(key, value, height);
      ExtendsCtx(h, Memory(), key, ctx, 0);
      LinkTower(node, ctx);
    }

    /** `insert_with`: allocate and write in place, then search, then link. */
    method InsertWith(key: Bytes, value: Bytes, height: nat) returns (node: int)
      requires Valid() && 1 <= height <= MAX_HEIGHT
      modifies this
      ensures Valid() && Entries() == SpecInsert(less, old(Entries()), Entry(key, value))
      ensures node == |old(nodes)| && nodes == old(nodes) + [Node(key, value, height)]
      ensures forall l | 0 <= l < height :: node in rows[l]
    {
      node := NewNode(key, value, height);
      var ctx := Search(nodes[node].key);
      LinkTower(node, ctx);
    }

    method LinkTower(node: int, start: Ctx)
      requires Valid() && OwnOk(Memory(), node, 0) && CtxOk(Memory(), nodes[node].key, start, 0)
      requires next[node][0] == NULL
      modifies this`next, this`rows
      ensures Valid() && Entries() == SpecInsert(less, old(Entries()), Entry(nodes[node].key, nodes[node].value))
      ensures forall l | 0 <= l < nodes[node].height :: node in rows[l]
    {
      var ctx := LinkAt(node, 0, start);
      LinkUpperLevels(node, ctx);
    }

    /** The levels above the base, bottom up. */
    method LinkUpperLevels(node: int, start: Ctx)
      requires Valid() && 0 <= node < |nodes| && 1 <= nodes[node].height <= MAX_HEIGHT && node in rows[0]
      requires 1 < nodes[node].height ==> OwnOk(Memory(), node, 1) && next[node][1] == NULL
                                          && CtxOk(Memory(), nodes[node].key, start, 1)
      modifies this`next, this`rows
      ensures Valid() && Entries() == old(Entries())
      ensures forall l | 0 <= l < nodes[node].height :: node in rows[l]
    {
      var height := nodes[node].height;
      var ctx := start;
      var level: nat := 1;
      while level < height
        invariant 1 <= level <= height && Valid() && Entries() == old(Entries())
        invariant level < height ==> OwnOk(Memory(), node, level) && next[node][level] == NULL
                                     && CtxOk(Memory(), nodes[node].key, ctx, level)
        invariant node in rows[level - 1]
      {
        ghost var entries := Entries();
        ctx := LinkAt(node, level, ctx);
        assert Entries() == entries;
        level := level + 1;
      }
      LinkedBelow(Memory(), node, height - 1);
    }

    // ---------- Reading ----------

    /** `seek` followed by `next` until the end. */
    method Scan(key: Bytes) returns (out: seq<Entry>)
      requires Valid()
      ensures out == Entries()[LowerBound(less, Entries(), key)..]
    {
      ghost var h := Memory();
      ghost var row := rows[0];
      var ctx := Search(key);
      assert CtxAt(h, key, ctx, 0) && FreshAt(h, ctx, 0);
      ghost var p := Position(row, ctx.preds[0]);
      assert PointsOn(h, 0, row, p);
      PositionIsLowerBound(h, p, key);
      out := [];
      ghost var i := p;
      var item := ctx.succs[0];
      while item != NULL
        invariant p <= i < |row| && item == After(row, i)
        invariant out == Entries()[p..i]
        decreases |row| - i
      {
        ScanStep(h, p, i);
        out := out + [Entry(nodes[item].key, nodes[item].value)];
        item := next[item][0];
        i := i + 1;
      }
    }
  }

  // ---------- Facts the methods use ----------

  /** The follower of position `i` of the base row is the next entry, and points to the one after it. */
  lemma {:induction false} ScanStep(h: Heap, p: nat, i: nat)
    requires Inv(h) && RowOk(h, 0) && p <= i && i + 1 < |h.rows[0]|
    ensures var n := h.rows[0][i + 1];
      && 0 <= n < |h.nodes| && InTower(h, n, 0) && h.next[n][0] == After(h.rows[0], i + 1)
      && Content(h)[p..i + 1] == Content(h)[p..i] + [Entry(h.nodes[n].key, h.nodes[n].value)]
  {
    assert PointsOn(h, 0, h.rows[0], i + 1);
  }

  lemma {:induction false} NextIndex(h: Heap, level: int, pred: int)
    requires Inv(h) && 0 <= level < MAX_HEIGHT && pred in h.rows[level]
    requires Load(h, pred, level) != NULL && Load(h, pred, level) in h.rows[level]
    ensures IndexOf(h.rows[level], Load(h, pred, level)) == IndexOf(h.rows[level], pred) + 1
  {
    var row := h.rows[level];
    assert RowOk(h, level);
    var p := IndexOf(row, pred);
    assert PointsOn(h, level, row, p);
    assert Apart(row, p + 1, IndexOf(row, Load(h, pred, level)));
  }

  /** If the node's slot already holds a successor, a fresh search at that level finds one too. */
  lemma {:induction false} SlotStaysCovered(h: Heap, node: int, level: nat, ctx: Ctx)
    requires Inv(h) && OwnOk(h, node, level)
    requires CtxOk(h, h.nodes[node].key, ctx, 0) && FreshFrom(h, ctx, 0)
    ensures h.next[node][level] != NULL ==> Succ(ctx, level) != NULL
    ensures CtxOk(h, h.nodes[node].key, ctx, level) && FreshAt(h, ctx, level)
  {
    var key := h.nodes[node].key;
    assert forall l | level <= l < MAX_HEIGHT :: CtxAt(h, key, ctx, l);
    assert CtxAt(h, key, ctx, level) && FreshAt(h, ctx, level);
    WalkLoads(h, key, Link(node, level), level, Pred(ctx, level));
  }

  /** What linking a node at `level` does to the entries: only the base level adds one. */
  ghost function AfterLink(less: Less, entries: seq<Entry>, node: Node, level: nat): seq<Entry> {
    if level == 0 then SpecInsert(less, entries, Entry(node.key, node.value)) else entries
  }

  lemma {:induction false} LinkEffect(h: Heap, node: int, level: nat, ctx: Ctx)
    requires Inv(h) && PcInv(h, Cas(node, level, ctx)) && FreshAt(h, ctx, level)
    ensures var h' := LinkNode(h, level, Pred(ctx, level), node);
      && Inv(h') && RowOk(h', 0) && RowOk(h, 0) && node in h'.rows[level]
      && Content(h') == AfterLink(h.less, Content(h), h.nodes[node], level)
      && (level + 1 < h.nodes[node].height ==>
            OwnOk(h', node, level + 1) && h'.next[node][level + 1] == NULL
                && CtxOk(h', h.nodes[node].key, ctx, level + 1))
  {
    CasMayLink(h, node, level, ctx);
    var p := IndexOf(h.rows[level], Pred(ctx, level));
    LinkKeepsInv(h, level, p, node);
    var h' := LinkAfter(h, level, p, node);
    InsertAtMember(h.rows[level], p + 1, node, node);
    assert RowOk(h, 0) && RowOk(h', 0);
    if level == 0 {
      LinkInserts(h, p, node);
    } else {
      assert Content(h') == Content(h);
    }
    if level + 1 < h.nodes[node].height {
      LinkedOwn(h, node, level, p);
      LinkedCtx(h, node, level, p, ctx);
    }
  }

  lemma {:induction false} LinkedBelow(h: Heap, node: int, level: int)
    requires Inv(h) && 0 <= level < MAX_HEIGHT && node in h.rows[level]
    ensures forall l | 0 <= l <= level :: node in h.rows[l]
  {
    if level > 0 {
      assert RowBelow(h, level);
      LinkedBelow(h, node, level - 1);
    }
  }
}
