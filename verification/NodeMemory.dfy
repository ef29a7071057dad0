/**
  Skip-list nodes as bytes in arena chunks.  A node is addressed by its chunk and start; where its key
  and value lie is computed from the lengths stored in its header, as the accessors do.
 */
module NodeMemory {
  import opened Basics
  import opened Bits
  import opened ByteOrder
  import opened ArenaLayout
  import opened ArenaMachine
  import opened ArenaTheorems
  import opened ArenaCalls

  /** One byte sequence per chunk. */
  type Memory = seq<Bytes>

  datatype NodeRef = NodeRef(chunk: nat, start: nat, shape: NodeShape)

  function Read(mem: Memory, c: nat, at: nat, len: nat): Bytes
    requires c < |mem| && at + len <= |mem[c]|
  {
    mem[c][at..at + len]
  }

  function Write(mem: Memory, c: nat, at: nat, bs: Bytes): (r: Memory)
    requires c < |mem| && at + |bs| <= |mem[c]|
    ensures |r| == |mem| && forall d | 0 <= d < |mem| :: |r[d]| == |mem[d]|
  {
    mem[c := mem[c][..at] + bs + mem[c][at + |bs|..]]
  }

  /** A write is read back, and does not show in any range apart from it. */
  lemma {:induction false} WriteFrame(mem: Memory, c: nat, at: nat, bs: Bytes, d: nat, from: nat, len: nat)
    requires c < |mem| && at + |bs| <= |mem[c]| && d < |mem| && from + len <= |mem[d]|
    ensures Read(Write(mem, c, at, bs), c, at, |bs|) == bs
    ensures c != d || at + |bs| <= from || from + len <= at ==>
      Read(Write(mem, c, at, bs), d, from, len) == Read(mem, d, from, len)
  {
    var was := mem[c];
    var row := was[..at] + bs + was[at + |bs|..];
    assert row[at..at + |bs|] == bs;
    forall i | 0 <= i < |was| && !(at <= i < at + |bs|)
      ensures row[i] == was[i]
    {
    }
    if c == d && (at + |bs| <= from || from + len <= at) {
      assert row[from..from + len] == was[from..from + len];
    }
  }

  // ---------- Nodes in granted ranges ----------

  /** The range a node's layout asks for. */
  ghost function Wanted(n: NodeRef): Range {
    Range(n.start, NodeLayout(n.shape).size, NodeLayout(n.shape).align)
  }

  ghost predicate IsGranted(a: Arena, n: NodeRef) {
    && n.chunk < |a.chunks|
    && Wanted(n) in a.chunks[n.chunk].grants
  }

  ghost predicate SameAddress(n: NodeRef, m: NodeRef) { n.chunk == m.chunk && n.start == m.start }

  /** The nodes placed in an arena: each in a range of its own. */
  ghost predicate Population(a: Arena, nodes: set<NodeRef>) {
    && (forall n | n in nodes :: IsGranted(a, n))
    && (forall n, m | n in nodes && m in nodes && SameAddress(n, m) :: n == m)
  }

  ghost predicate MemoryOf(a: Arena, mem: Memory) {
    |mem| == |a.chunks| && forall c | 0 <= c < |mem| :: |mem[c]| == a.chunks[c].len
  }

  function PartStart(n: NodeRef, p: Part): nat { n.start + Offset(n.shape, p) }

  function PartLen(n: NodeRef, p: Part): nat { Length(n.shape, p) }

  lemma {:induction false} NodesAreApart(a: Arena, n: NodeRef, m: NodeRef)
    requires EveryChunkOk(a) && IsGranted(a, n) && IsGranted(a, m) && !SameAddress(n, m) && n.chunk == m.chunk
    ensures n.start + NodeLayout(n.shape).size <= m.start || m.start + NodeLayout(m.shape).size <= n.start
  {
    var ch := a.chunks[n.chunk];
    assert ChunkOk(ch);
    var i :| 0 <= i < |ch.grants| && ch.grants[i] == Wanted(n);
    var j :| 0 <= j < |ch.grants| && ch.grants[j] == Wanted(m);
    if i < j {
      RangesAreStacked(ch, i, j);
    } else {
      RangesAreStacked(ch, j, i);
    }
  }

  /** Distinct parts, of one node or of two, do not overlap, and each lies inside its chunk. */
  lemma {:induction false} AllPartsAreApart(a: Arena, nodes: set<NodeRef>, n: NodeRef, p: Part, m: NodeRef, q: Part)
    requires EveryChunkOk(a) && Population(a, nodes) && n in nodes && m in nodes
    requires HasPart(n.shape, p) && HasPart(m.shape, q)
    ensures n.chunk < |a.chunks| && PartStart(n, p) + PartLen(n, p) <= a.chunks[n.chunk].len
    ensures (n, p) != (m, q) ==>
      || n.chunk != m.chunk
      || PartStart(n, p) + PartLen(n, p) <= PartStart(m, q)
      || PartStart(m, q) + PartLen(m, q) <= PartStart(n, p)
  {
    assert IsGranted(a, n) && IsGranted(a, m);
    InsideChunk(a, n, p);
    if n == m {
      PartsAreApart(n.shape, p, q);
    } else if n.chunk == m.chunk {
      PartsOfTwoNodes(a, n, p, m, q);
    }
  }

  lemma {:induction false} PartsOfTwoNodes(a: Arena, n: NodeRef, p: Part, m: NodeRef, q: Part)
    requires EveryChunkOk(a) && IsGranted(a, n) && IsGranted(a, m) && !SameAddress(n, m) && n.chunk == m.chunk
    requires HasPart(n.shape, p) && HasPart(m.shape, q)
    ensures PartStart(n, p) + PartLen(n, p) <= PartStart(m, q) || PartStart(m, q) + PartLen(m, q) <= PartStart(n, p)
  {
    NodesAreApart(a, n, m);
    PartsAreApart(n.shape, p, p);
    PartsAreApart(m.shape, q, q);
  }

  lemma {:induction false} InsideChunk(a: Arena, n: NodeRef, p: Part)
    requires EveryChunkOk(a) && IsGranted(a, n) && HasPart(n.shape, p)
    ensures PartStart(n, p) + PartLen(n, p) <= n.start + NodeLayout(n.shape).size <= a.chunks[n.chunk].len
  {
    var ch := a.chunks[n.chunk];
    assert ChunkOk(ch);
    var i :| 0 <= i < |ch.grants| && ch.grants[i] == Wanted(n);
    assert RangeOk(ch, i);
    PartsAreApart(n.shape, p, p);
  }

  // ---------- Stores ----------

  /** Writing one part of one node. */
  datatype Store = Store(node: NodeRef, part: Part, bytes: Bytes)

  ghost predicate StoreOk(nodes: set<NodeRef>, w: Store) {
    w.node in nodes && HasPart(w.node.shape, w.part) && |w.bytes| == PartLen(w.node, w.part)
  }

  /** The store is within the memory. */
  ghost predicate InBounds(mem: Memory, w: Store) {
    w.node.chunk < |mem| && PartStart(w.node, w.part) + |w.bytes| <= |mem[w.node.chunk]|
  }

  ghost function Apply(mem: Memory, w: Store): (r: Memory) {
    if InBounds(mem, w) then Write(mem, w.node.chunk, PartStart(w.node, w.part), w.bytes) else mem
  }

  ghost function Replay(mem: Memory, ws: seq<Store>): Memory {
    if ws == [] then mem else Apply(Replay(mem, ws[..|ws| - 1]), ws[|ws| - 1])
  }

  /** The bytes last stored in a part. */
  ghost function LastStore(ws: seq<Store>, n: NodeRef, p: Part): Option<Bytes> {
    if ws == [] then None
    else
      var w := ws[|ws| - 1];
      if w.node == n && w.part == p then Some(w.bytes) else LastStore(ws[..|ws| - 1], n, p)
  }

  ghost predicate StoresOk(nodes: set<NodeRef>, ws: seq<Store>) {
    forall i | 0 <= i < |ws| :: StoreOk(nodes, ws[i])
  }

  lemma {:induction false} ReplaySize(a: Arena, mem: Memory, ws: seq<Store>)
    requires MemoryOf(a, mem)
    ensures MemoryOf(a, Replay(mem, ws))
  {
    if ws != [] {
      ReplaySize(a, mem, ws[..|ws| - 1]);
    }
  }

  /** In an arena whose ranges are granted as they should be, memory is a map from parts of nodes to bytes:
      after any stores to any nodes, each part holds what was last stored in it. */
  lemma {:induction false} PartsHoldLastStore(a: Arena, nodes: set<NodeRef>, mem: Memory, ws: seq<Store>, n: NodeRef,
                                              p: Part)
    requires EveryChunkOk(a) && Population(a, nodes) && MemoryOf(a, mem) && StoresOk(nodes, ws)
    requires n in nodes && HasPart(n.shape, p)
    ensures var after := Replay(mem, ws);
      && MemoryOf(a, after) && n.chunk < |after| && PartStart(n, p) + PartLen(n, p) <= |after[n.chunk]|
      && Read(after, n.chunk, PartStart(n, p), PartLen(n, p)) ==
         match LastStore(ws, n, p) case Some(bs) => bs case None => Read(mem, n.chunk, PartStart(n, p), PartLen(n, p))
  {
    ReplaySize(a, mem, ws);
    AllPartsAreApart(a, nodes, n, p, n, p);
    if ws != [] {
      var before, w := ws[..|ws| - 1], ws[|ws| - 1];
      PartsHoldLastStore(a, nodes, mem, before, n, p);
      assert StoreOk(nodes, w);
      StoreHitsItsPart(a, nodes, Replay(mem, before), w, n, p);
    }
  }

  /** A store is seen in its own part and in no other. */
  lemma {:induction false} StoreHitsItsPart(a: Arena, nodes: set<NodeRef>, mem: Memory, w: Store, n: NodeRef, p: Part)
    requires EveryChunkOk(a) && Population(a, nodes) && MemoryOf(a, mem) && StoreOk(nodes, w)
    requires n in nodes && HasPart(n.shape, p)
    ensures MemoryOf(a, Apply(mem, w)) && n.chunk < |mem| && PartStart(n, p) + PartLen(n, p) <= |mem[n.chunk]|
    ensures Read(Apply(mem, w), n.chunk, PartStart(n, p), PartLen(n, p)) ==
      if w.node == n && w.part == p then w.bytes else Read(mem, n.chunk, PartStart(n, p), PartLen(n, p))
  {
    AllPartsAreApart(a, nodes, n, p, w.node, w.part);
    AllPartsAreApart(a, nodes, w.node, w.part, n, p);
    WriteFrame(mem, w.node.chunk, PartStart(w.node, w.part), w.bytes, n.chunk, PartStart(n, p), PartLen(n, p));
  }

  // ---------- The accessors ----------

  ghost predicate Encodable(s: NodeShape) {
    s.height < 0x1_0000 && s.keyLen < 0x1_0000 && s.valueLen < 0x1_0000_0000
  }

  /** The byte order of the machine. */
  datatype Endian = Little | Big

  function Encode(e: Endian, x: nat, n: nat): (r: Bytes)
    ensures |r| == n
  {
    if e.Little? then ToLe(x, n) else ToBe(x, n)
  }

  function Decode(e: Endian, bs: Bytes): nat {
    if e.Little? then FromLe(bs) else FromBe(bs)
  }

  lemma {:induction false} DecodeEncode(e: Endian, x: nat, n: nat)
    requires x < Pow2(8 * n)
    ensures Decode(e, Encode(e, x, n)) == x
  {
    FromToLe(x, n);
    FromToBe(x, n);
  }

  /** The header: height and key length in two bytes each, value length in four. */
  function HeaderBytes(e: Endian, s: NodeShape): (r: Bytes)
    ensures |r| == 8
  {
    Encode(e, s.height, 2) + Encode(e, s.keyLen, 2) + Encode(e, s.valueLen, 4)
  }

  /** The bytes of a header, lowest byte first: height at 0, key length at 2, value length at 4; on a machine of
      the other byte order each field is turned around. */
  lemma {:induction false} HeaderBytesAre(s: NodeShape, k: nat)
    requires k < 8
    ensures var little, big := HeaderBytes(Little, s), HeaderBytes(Big, s);
      && (k < 2 ==> little[k] == big[1 - k] == s.height / Power(k) % 256)
      && (2 <= k < 4 ==> little[k] == big[5 - k] == s.keyLen / Power(k - 2) % 256)
      && (4 <= k ==> little[k] == big[11 - k] == s.valueLen / Power(k - 4) % 256)
  {
    if k < 2 {
      LeDigit(s.height, 2, k);
      BeDigit(s.height, 2, 1 - k);
    } else if k < 4 {
      LeDigit(s.keyLen, 2, k - 2);
      BeDigit(s.keyLen, 2, 3 - k);
    } else {
      LeDigit(s.valueLen, 4, k - 4);
      BeDigit(s.valueLen, 4, 7 - k);
    }
  }

  /** The lengths a header tells. */
  function ShapeOf(e: Endian, header: Bytes): NodeShape
    requires |header| == 8
  {
    NodeShape(Decode(e, header[..2]), Decode(e, header[2..4]), Decode(e, header[4..]))
  }

  lemma {:induction false} HeaderTells(e: Endian, s: NodeShape)
    requires Encodable(s)
    ensures ShapeOf(e, HeaderBytes(e, s)) == s
  {
    var h := HeaderBytes(e, s);
    assert h[..2] == Encode(e, s.height, 2) && h[2..4] == Encode(e, s.keyLen, 2) && h[4..] == Encode(e, s.valueLen, 4);
    HalfWords();
    DecodeEncode(e, s.height, 2);
    DecodeEncode(e, s.keyLen, 2);
    DecodeEncode(e, s.valueLen, 4);
  }

  /** `Some` unless the access would leave the chunk. */
  function Fetch(mem: Memory, c: nat, at: nat, len: nat): Option<Bytes> {
    if c < |mem| && at + len <= |mem[c]| then Some(Read(mem, c, at, len)) else None
  }

  /** `get_key_bytes`: header first, then the bytes it points to. */
  function KeyBytes(e: Endian, mem: Memory, c: nat, start: nat): Option<Bytes> {
    match Fetch(mem, c, start, 8)
    case None => None
    case Some(h) => if |h| != 8 then None else var s := ShapeOf(e, h); Fetch(mem, c, start + Offset(s, Key), s.keyLen)
  }

  /** `get_value_bytes`. */
  function ValueBytes(e: Endian, mem: Memory, c: nat, start: nat): Option<Bytes> {
    match Fetch(mem, c, start, 8)
    case None => None
    case Some(h) => if |h| != 8 then None
        else var s := ShapeOf(e, h); Fetch(mem, c, start + Offset(s, Value), s.valueLen)
  }

  /** `tower_height`: the distance from tower to key, in pointers. */
  function TowerHeight(e: Endian, mem: Memory, c: nat, start: nat): Option<nat> {
    match Fetch(mem, c, start, 8)
    case None => None
    case Some(h) => if |h| != 8 then None
        else Some((Offset(ShapeOf(e, h), Key) - Offset(ShapeOf(e, h), Slot(0))) / SLOT_SIZE)
  }

  ghost predicate Holds(mem: Memory, n: NodeRef, p: Part, bs: Bytes) {
    && n.chunk < |mem| && PartStart(n, p) + PartLen(n, p) <= |mem[n.chunk]|
    && Read(mem, n.chunk, PartStart(n, p), PartLen(n, p)) == bs
  }

  /** The accessors find the parts, whose place they compute from the header's bytes. */
  lemma {:induction false} AccessorsFindParts(e: Endian, mem: Memory, n: NodeRef, key: Bytes, value: Bytes)
    requires Encodable(n.shape) && Holds(mem, n, Header, HeaderBytes(e, n.shape)) && Holds(mem, n, Key, key)
      && Holds(mem, n, Value, value)
    ensures KeyBytes(e, mem, n.chunk, n.start) == Some(key)
    ensures ValueBytes(e, mem, n.chunk, n.start) == Some(value)
    ensures TowerHeight(e, mem, n.chunk, n.start) == Some(n.shape.height)
  {
    HeaderTells(e, n.shape);
    HeaderFetched(mem, n, HeaderBytes(e, n.shape));
    PartFetched(mem, n, Key, key);
    PartFetched(mem, n, Value, value);
  }

  lemma {:induction false} HeaderFetched(mem: Memory, n: NodeRef, bs: Bytes)
    requires Holds(mem, n, Header, bs)
    ensures Fetch(mem, n.chunk, n.start, 8) == Some(bs)
  {
    assert PartStart(n, Header) == n.start && PartLen(n, Header) == 8;
  }

  lemma {:induction false} PartFetched(mem: Memory, n: NodeRef, p: Part, bs: Bytes)
    requires Holds(mem, n, p, bs)
    ensures Fetch(mem, n.chunk, n.start + Offset(n.shape, p), Length(n.shape, p)) == Some(bs)
  {
  }

  lemma {:induction false} PartHolds(a: Arena, nodes: set<NodeRef>, mem: Memory, ws: seq<Store>, n: NodeRef, p: Part,
                                     bs: Bytes)
    requires EveryChunkOk(a) && Population(a, nodes) && MemoryOf(a, mem) && StoresOk(nodes, ws)
    requires n in nodes && HasPart(n.shape, p) && LastStore(ws, n, p) == Some(bs)
    ensures Holds(Replay(mem, ws), n, p, bs)
  {
    PartsHoldLastStore(a, nodes, mem, ws, n, p);
  }

  // ---------- Nodes in returned ranges ----------

  /** The allocations, by their number, that were calls for a node's layout, each with the node's shape. */
  ghost predicate Placement(s0: State, schedule: Schedule, placed: map<nat, NodeShape>) {
    forall j | j in placed :: IsNodeCall(Answered(s0, schedule), j, placed[j])
  }

  /** Answer `j` was to a call with the layout that `build_layout` makes for the shape. */
  ghost predicate IsNodeCall(answered: seq<Layout>, j: nat, shape: NodeShape) {
    j < |answered| && answered[j] == NodeLayout(shape)
  }

  ghost function NodeAt(a: Arena, j: nat, shape: NodeShape): NodeRef {
    if j < |a.returned| then NodeRef(a.returned[j].c, RangeOf(a, a.returned[j]).start, shape) else NodeRef(0, 0, shape)
  }

  ghost function NodesOf(a: Arena, placed: map<nat, NodeShape>): set<NodeRef> {
    set j | j in placed :: NodeAt(a, j, placed[j])
  }

  /** Nodes placed by two allocations have two addresses. */
  lemma {:induction false} AddressesDiffer(block: nat, cap: nat, threads: nat, schedule: Schedule,
                                          placed: map<nat, NodeShape>, j: nat, k: nat)
    requires 0 < block < HALF && block <= cap && Placement(InitState(block, cap, threads), schedule, placed)
    requires j in placed && k in placed
    ensures var a := Exec(InitState(block, cap, threads), schedule).a;
      && IsGranted(a, NodeAt(a, j, placed[j]))
      && (SameAddress(NodeAt(a, j, placed[j]), NodeAt(a, k, placed[k])) ==> j == k)
  {
    var a := Exec(InitState(block, cap, threads), schedule).a;
    var answered := Answered(InitState(block, cap, threads), schedule);
    CallsKept(block, cap, threads, schedule);
    assert IsNodeCall(answered, j, placed[j]) && IsNodeCall(answered, k, placed[k]);
    ReturnsServeCalls(block, cap, threads, schedule, j);
    ReturnsServeCalls(block, cap, threads, schedule, k);
    ReturnedRangesAreDisjoint(block, cap, threads, schedule, j, k);
    NodeLayoutSize(placed[j]);
    NodeLayoutSize(placed[k]);
    var x := a.returned[j];
    assert a.chunks[x.c].grants[x.i] == Range(RangeOf(a, x).start, NodeLayout(placed[j]).size,
        NodeLayout(placed[j]).align);
  }

  /** In every interleaving of arena allocations, the nodes placed in returned ranges are a population: each
      has a range of its own. */
  lemma {:induction false} ReturnedNodesArePopulation(block: nat, cap: nat, threads: nat, schedule: Schedule,
                                                     placed: map<nat, NodeShape>)
    requires 0 < block < HALF && block <= cap && Placement(InitState(block, cap, threads), schedule, placed)
    ensures var a := Exec(InitState(block, cap, threads), schedule).a; Population(a, NodesOf(a, placed))
  {
    var a := Exec(InitState(block, cap, threads), schedule).a;
    forall n | n in NodesOf(a, placed)
      ensures IsGranted(a, n)
    {
      var j :| j in placed && n == NodeAt(a, j, placed[j]);
      AddressesDiffer(block, cap, threads, schedule, placed, j, j);
    }
    forall n, m | n in NodesOf(a, placed) && m in NodesOf(a, placed) && SameAddress(n, m)
      ensures n == m
    {
      var j :| j in placed && n == NodeAt(a, j, placed[j]);
      var k :| k in placed && m == NodeAt(a, k, placed[k]);
      AddressesDiffer(block, cap, threads, schedule, placed, j, k);
    }
  }

  /** In every interleaving of arena allocations, and after any stores to any parts of any nodes placed in
      returned ranges, a node's accessors return the key and value last stored in it. */
  lemma {:induction false} NodesReadBack(block: nat, cap: nat, threads: nat, schedule: Schedule,
                                        placed: map<nat, NodeShape>, e: Endian, mem: Memory, ws: seq<Store>,
                                        j: nat, key: Bytes, value: Bytes)
    requires 0 < block < HALF && block <= cap
    requires var a := Exec(InitState(block, cap, threads), schedule).a;
      && Placement(InitState(block, cap, threads), schedule, placed)
      && MemoryOf(a, mem) && StoresOk(NodesOf(a, placed), ws)
      && j in placed && Encodable(placed[j])
      && var n := NodeAt(a, j, placed[j]);
      && LastStore(ws, n, Header) == Some(HeaderBytes(e, placed[j]))
      && LastStore(ws, n, Key) == Some(key) && LastStore(ws, n, Value) == Some(value)
    ensures var a := Exec(InitState(block, cap, threads), schedule).a;
      var n, after := NodeAt(a, j, placed[j]), Replay(mem, ws);
      && KeyBytes(e, after, n.chunk, n.start) == Some(key)
      && ValueBytes(e, after, n.chunk, n.start) == Some(value)
      && TowerHeight(e, after, n.chunk, n.start) == Some(placed[j].height)
  {
    ExecKeeps(block, cap, threads, schedule);
    ReturnedNodesArePopulation(block, cap, threads, schedule, placed);
    var a := Exec(InitState(block, cap, threads), schedule).a;
    StoredNodeReadsBack(a, NodesOf(a, placed), e, mem, ws, NodeAt(a, j, placed[j]), key, value);
  }

  lemma {:induction false} StoredNodeReadsBack(a: Arena, nodes: set<NodeRef>, e: Endian, mem: Memory, ws: seq<Store>,
                                              n: NodeRef, key: Bytes, value: Bytes)
    requires EveryChunkOk(a) && Population(a, nodes) && MemoryOf(a, mem) && StoresOk(nodes, ws)
    requires n in nodes && Encodable(n.shape)
    requires LastStore(ws, n, Header) == Some(HeaderBytes(e, n.shape))
    requires LastStore(ws, n, Key) == Some(key) && LastStore(ws, n, Value) == Some(value)
    ensures var after := Replay(mem, ws);
      && KeyBytes(e, after, n.chunk, n.start) == Some(key)
      && ValueBytes(e, after, n.chunk, n.start) == Some(value)
      && TowerHeight(e, after, n.chunk, n.start) == Some(n.shape.height)
  {
    PartHolds(a, nodes, mem, ws, n, Header, HeaderBytes(e, n.shape));
    PartHolds(a, nodes, mem, ws, n, Key, key);
    PartHolds(a, nodes, mem, ws, n, Value, value);
    AccessorsFindParts(e, Replay(mem, ws), n, key, value);
  }

  // ---------- init_node ----------

  /** `init_node` on a chunk's bytes: the header, then a null in every tower slot; nothing else changes. */
  method InitNode(e: Endian, chunk: array<Byte>, start: nat, shape: NodeShape)
    requires start + Offset(shape, Key) <= chunk.Length
    modifies chunk
    ensures chunk[start..start + 8] == HeaderBytes(e, shape)
    ensures forall i | start + 8 <= i < start + Offset(shape, Key) :: chunk[i] == 0
    ensures forall i | 0 <= i < chunk.Length && !(start <= i < start + Offset(shape, Key)) :: chunk[i] == old(chunk[i])
  {
    var header := HeaderBytes(e, shape);
    for i := 0 to 8
      invariant forall j | 0 <= j < i :: chunk[start + j] == header[j]
      invariant forall j | 0 <= j < chunk.Length && !(start <= j < start + 8) :: chunk[j] == old(chunk[j])
    {
      chunk[start + i] := header[i];
    }
    assert chunk[start..start + 8] == header;
    for level := 0 to shape.height
      invariant chunk[start..start + 8] == header
      invariant forall j | start + 8 <= j < start + Offset(shape, Slot(level)) :: chunk[j] == 0
      invariant forall j | 0 <= j < chunk.Length && !(start <= j < start + Offset(shape, Slot(level))) ::
          chunk[j] == old(chunk[j])
    {
      NullSlot(chunk, start, shape, level);
    }
  }

  method NullSlot(chunk: array<Byte>, start: nat, shape: NodeShape, level: nat)
    requires level < shape.height && start + Offset(shape, Key) <= chunk.Length
    modifies chunk
    ensures var at := start + Offset(shape, Slot(level));
      && at + SLOT_SIZE <= chunk.Length
      && forall j | 0 <= j < chunk.Length :: chunk[j] == if at <= j < at + SLOT_SIZE then 0 else old(chunk[j])
  {
    var at := start + Offset(shape, Slot(level));
    for i := 0 to SLOT_SIZE
      invariant forall j | 0 <= j < chunk.Length :: chunk[j] == if at <= j < at + i then 0 else old(chunk[j])
    {
      chunk[at + i] := 0;
    }
  }
}
