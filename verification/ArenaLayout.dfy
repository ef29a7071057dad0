/** Alignment arithmetic of the arena and the memory layout of a skip-list node. */
module ArenaLayout {
  import opened Basics
  import opened Bits

  /** `std::alloc::Layout`: a size and a power-of-two alignment. */
  datatype Layout = Layout(size: nat, align: nat)

  ghost predicate IsPowerOfTwo(a: nat) {
    exists k: nat :: k <= 64 && a == Pow2(k)
  }

  // ---------- alignment_check ----------

  /** `(bump + (align - 1)) & !(align - 1)`. */
  function Aligned(bump: nat, layout: Layout): nat
    requires 1 <= layout.align <= WORD
  {
    And(bump + (layout.align - 1), Not64(layout.align - 1))
  }

  /** The sum does not overflow a machine word. */
  ghost predicate Addressable(bump: nat, layout: Layout) {
    IsPowerOfTwo(layout.align) && 1 <= layout.align <= WORD && bump + (layout.align - 1) < WORD
  }

  lemma {:induction false} AlignedIsRounded(bump: nat, layout: Layout)
    requires Addressable(bump, layout)
    ensures var x := bump + (layout.align - 1); Aligned(bump, layout) == x - x % layout.align
  {
    var k: nat :| k <= 64 && layout.align == Pow2(k);
    MaskRounds(bump + (layout.align - 1), layout.align, k);
  }

  lemma {:induction false} MaskRounds(x: nat, a: nat, k: nat)
    requires k <= 64 && a == Pow2(k) && 1 <= a <= WORD && x < WORD
    ensures And(x, Not64(a - 1)) == x - x % a
  {
    AndNotLow64(x, k);
  }

  lemma {:induction false} RoundUpIsLeast(bump: nat, a: nat, y: nat)
    requires a >= 1
    ensures var x := bump + (a - 1); var r := x - x % a;
      && r % a == 0 && bump <= r < bump + a
      && (y % a == 0 && y >= bump ==> r <= y)
  {
    var x := bump + (a - 1);
    var q := x / a;
    assert x - x % a == a * q;
    DivModUnique(a * q, a, q, 0);
    if y % a == 0 && y >= bump && y < a * q {
      assert y == a * (y / a);
      MulGap(a, y / a, q);
      assert false;
    }
  }

  /** For every power of two, the bit-mask rounding yields the least aligned offset >= bump. */
  lemma {:induction false} AlignedIsLeast(bump: nat, layout: Layout, y: nat)
    requires Addressable(bump, layout)
    ensures var r := Aligned(bump, layout);
      && r % layout.align == 0 && bump <= r < bump + layout.align
      && (y % layout.align == 0 && y >= bump ==> r <= y)
  {
    AlignedIsRounded(bump, layout);
    RoundUpIsLeast(bump, layout.align, y);
  }

  lemma {:induction false} AlignedZero(layout: Layout)
    requires Addressable(0, layout)
    ensures Aligned(0, layout) == 0
  {
    AlignedIsLeast(0, layout, 0);
    assert 0 % layout.align == 0 by { ModSmall(0, layout.align); }
  }

  /** `alignment_check` against a chunk of `len` bytes: the aligned start, or `None` for `Overflow`. */
  function AlignmentCheck(bump: nat, layout: Layout, len: nat): Option<nat>
    requires 1 <= layout.align <= WORD
  {
    var aligned := Aligned(bump, layout);
    var next := aligned + layout.size;
    if next >= WORD || next > len then None else Some(aligned)
  }

  // ---------- Node::build_layout ----------

  function RoundUp(x: nat, a: nat): nat
    requires a >= 1
  {
    (x + (a - 1)) - (x + (a - 1)) % a
  }

  /** `Layout::extend`: the combined layout and the offset of `next` in it. */
  function Extend(l: Layout, next: Layout): (Layout, nat)
    requires next.align >= 1
  {
    var offset := RoundUp(l.size, next.align);
    (Layout(offset + next.size, if l.align < next.align then next.align else l.align), offset)
  }

  /** The parts of a node. */
  datatype Part = Header | Slot(level: nat) | Key | Value

  datatype NodeShape = NodeShape(height: nat, keyLen: nat, valueLen: nat)

  const SLOT_SIZE: nat := 8

  /** `Node` has two u16, one u32 and pointer alignment: 8 bytes, aligned to 8. */
  function NodeLayout(n: NodeShape): Layout {
    var header := Layout(8, 8);
    var (l1, _) := Extend(header, Layout(n.height * SLOT_SIZE, 8));
    var (l2, _) := Extend(l1, Layout(n.keyLen, 1));
    var (l3, _) := Extend(l2, Layout(n.valueLen, 1));
    l3
  }

  predicate HasPart(n: NodeShape, p: Part) { p.Slot? ==> p.level < n.height }

  /** Offsets as `tower_ptr`, `node_at_tower_level`, `key_ptr` and `value_ptr` compute them. */
  function Offset(n: NodeShape, p: Part): nat {
    match p
    case Header => 0
    case Slot(level) => 8 + level * SLOT_SIZE
    case Key => 8 + n.height * SLOT_SIZE
    case Value => 8 + n.height * SLOT_SIZE + n.keyLen
  }

  function Length(n: NodeShape, p: Part): nat {
    match p
    case Header => 8
    case Slot(_) => SLOT_SIZE
    case Key => n.keyLen
    case Value => n.valueLen
  }

  /** The offsets the pointer arithmetic uses are those at which the layout places the parts, and the
      layout ends where the value ends. */
  lemma {:induction false} LayoutPlacesParts(n: NodeShape)
    ensures var (l1, towerAt) := Extend(Layout(8, 8), Layout(n.height * SLOT_SIZE, 8));
      var (l2, keyAt) := Extend(l1, Layout(n.keyLen, 1));
      var (l3, valueAt) := Extend(l2, Layout(n.valueLen, 1));
      && towerAt == Offset(n, Slot(0)) && keyAt == Offset(n, Key) && valueAt == Offset(n, Value)
      && l3 == NodeLayout(n) == Layout(Offset(n, Value) + n.valueLen, 8)
  {
    PartsInBytes(n, Slot(0));
  }

  lemma {:induction false} NodeLayoutSize(n: NodeShape)
    ensures NodeLayout(n) == Layout(8 + 8 * n.height + n.keyLen + n.valueLen, 8)
  {
    LayoutPlacesParts(n);
  }

  /** Where each part starts and how long it is: eight bytes of header, eight bytes a pointer, then key and
      value without gaps. */
  lemma {:induction false} PartsInBytes(n: NodeShape, p: Part)
    ensures p == Header ==> Offset(n, p) == 0 && Length(n, p) == 8
    ensures p.Slot? ==> Offset(n, p) == 8 + 8 * p.level && Length(n, p) == 8
    ensures p == Key ==> Offset(n, p) == 8 + 8 * n.height && Length(n, p) == n.keyLen
    ensures p == Value ==> Offset(n, p) == 8 + 8 * n.height + n.keyLen && Length(n, p) == n.valueLen
  {
  }

  predicate InPart(n: NodeShape, p: Part, b: nat) {
    HasPart(n, p) && Offset(n, p) <= b < Offset(n, p) + Length(n, p)
  }

  /** The part a byte of the layout belongs to. */
  function PartAt(n: NodeShape, b: nat): Part {
    if b < 8 then Header else if b < Offset(n, Key) then Slot((b - 8) / SLOT_SIZE)
        else if b < Offset(n, Value) then Key else Value
  }

  lemma {:induction false} InPartIsPartAt(n: NodeShape, p: Part, b: nat)
    requires InPart(n, p, b)
    ensures p == PartAt(n, b) && b < NodeLayout(n).size
  {
    NodeLayoutSize(n);
  }

  /** Header, tower slots, key and value tile the layout: every byte belongs to exactly one part. */
  lemma {:induction false} PartsTileLayout(n: NodeShape, b: nat)
    ensures b < NodeLayout(n).size <==> exists p: Part :: InPart(n, p, b)
    ensures forall p: Part, q: Part | InPart(n, p, b) && InPart(n, q, b) :: p == q
  {
    NodeLayoutSize(n);
    if b < NodeLayout(n).size {
      assert InPart(n, PartAt(n, b), b);
    }
    forall p: Part | InPart(n, p, b)
      ensures p == PartAt(n, b) && b < NodeLayout(n).size
    {
      InPartIsPartAt(n, p, b);
    }
  }

  /** A part lies inside the layout, and two parts do not overlap. */
  lemma {:induction false} PartsAreApart(n: NodeShape, p: Part, q: Part)
    requires HasPart(n, p) && HasPart(n, q)
    ensures Offset(n, p) + Length(n, p) <= NodeLayout(n).size
    ensures p != q ==>
      Offset(n, p) + Length(n, p) <= Offset(n, q) || Offset(n, q) + Length(n, q) <= Offset(n, p)
  {
    NodeLayoutSize(n);
  }

  // ---------- Lengths that survive their casts ----------

  /** `insert` casts the key length to 16 bits and the value length to 32, lays the node out by the results,
      and then copies the whole key and value: each copy stays inside its own part. */
  predicate CopiesFit(height: nat, keyLen: nat, valueLen: nat) {
    var n := NodeShape(height, keyLen % 0x1_0000, valueLen % 0x1_0000_0000);
    Offset(n, Key) + keyLen <= Offset(n, Value) && Offset(n, Value) + valueLen <= NodeLayout(n).size
  }

  /** What a node can hold. */
  predicate Storable(keyLen: nat, valueLen: nat) {
    keyLen < 0x1_0000 && valueLen < 0x1_0000_0000
  }

  /** The copies stay inside the node exactly for lengths that the casts keep, whatever the height. */
  lemma {:induction false} CopiesFitIffStorable(height: nat, keyLen: nat, valueLen: nat)
    ensures CopiesFit(height, keyLen, valueLen) <==> Storable(keyLen, valueLen)
  {
    var n := NodeShape(height, keyLen % 0x1_0000, valueLen % 0x1_0000_0000);
    NodeLayoutSize(n);
    CastKeeps(keyLen, 0x1_0000);
    CastKeeps(valueLen, 0x1_0000_0000);
  }

  lemma {:induction false} CastKeeps(x: nat, m: nat)
    requires m >= 1
    ensures x <= x % m <==> x < m
  {
    if x < m {
      ModSmall(x, m);
    }
  }
}
