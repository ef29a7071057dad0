/** When a chunk can serve a layout, and that the arena's check finds out. */
module ArenaFit {
  import opened Basics
  import opened ArenaLayout
  import opened ArenaMachine

  /** Some aligned offset at or after the bump leaves room for the layout. */
  ghost predicate Fits(ch: Chunk, l: Layout) {
    exists y: nat :: FitsAt(ch, l, y)
  }

  ghost predicate FitsAt(ch: Chunk, l: Layout, y: nat) {
    l.align >= 1 && ch.bump <= y && y % l.align == 0 && y + l.size <= ch.len
  }

  /** `start` is the least offset at which the layout fits. */
  ghost predicate LeastFit(ch: Chunk, l: Layout, start: nat) {
    FitsAt(ch, l, start) && forall y: nat | FitsAt(ch, l, y) :: start <= y
  }

  /** The check succeeds exactly when the layout fits, and then at the least offset at which it does. */
  lemma {:induction false} CheckIsFits(ch: Chunk, l: Layout)
    requires ch.bump <= ch.len < HALF && GoodLayout(l)
    ensures AlignmentCheck(ch.bump, l, ch.len).Some? <==> Fits(ch, l)
    ensures var r := AlignmentCheck(ch.bump, l, ch.len);
      r.Some? ==> LeastFit(ch, l, r.value)
  {
    var r := Aligned(ch.bump, l);
    AlignedIsLeast(ch.bump, l, 0);
    forall y: nat | FitsAt(ch, l, y)
      ensures r <= y
    {
      AlignedIsLeast(ch.bump, l, y);
    }
    if AlignmentCheck(ch.bump, l, ch.len).Some? {
      assert FitsAt(ch, l, r);
    }
  }

  /** An empty block serves whatever is not longer than a block. */
  lemma {:induction false} EmptyFits(block: nat, l: Layout)
    requires block < HALF && GoodLayout(l)
    ensures Fits(Chunk(block, 0, []), l) <==> l.size <= block
    ensures l.size <= block ==> AlignmentCheck(0, l, block) == Some(0)
  {
    var ch := Chunk(block, 0, []);
    CheckIsFits(ch, l);
    AlignedZero(l);
  }
}
