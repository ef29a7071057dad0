/** The arena used by one thread: the allocation loop in full, with what it returns and when it fails. */
module ArenaStore {
  import opened Basics
  import opened Bits
  import opened ArenaLayout
  import opened ArenaMachine
  import opened ArenaTheorems
  import opened ArenaFit

  /** The chunk after `l` is granted at `start`. */
  function Granted(ch: Chunk, l: Layout, start: nat): Chunk {
    ch.(bump := start + l.size, grants := ch.grants + [Range(start, l.size, l.align)])
  }

  lemma {:induction false} TotalAppend(chunks: seq<Chunk>, ch: Chunk)
    ensures TotalSize(chunks + [ch]) == TotalSize(chunks) + SizeSum(ch.grants)
  {
    assert (chunks + [ch])[..|chunks|] == chunks;
  }

  lemma {:induction false} TotalGrant(chunks: seq<Chunk>, c: nat, l: Layout, start: nat)
    requires c < |chunks|
    ensures TotalSize(chunks[c := Granted(chunks[c], l, start)]) == TotalSize(chunks) + l.size
  {
    var ch := Granted(chunks[c], l, start);
    TotalUpdate(chunks, c, ch);
    assert ch.grants[..|chunks[c].grants|] == chunks[c].grants;
  }

  lemma {:induction false} QuotientOf(n: nat, block: nat)
    requires block >= 1
    ensures (n * block) / block == n
  {
    DivModUnique(n * block, block, n, 0);
  }

  ghost predicate AllOk(chunks: seq<Chunk>, block: nat) {
    forall c | 0 <= c < |chunks| :: ChunkOk(chunks[c]) && chunks[c].len == block
  }

  /** Where an allocation lies. */
  datatype Place = Place(chunk: nat, start: nat)

  class Arena {
    const block: nat
    const cap: nat
    var chunks: seq<Chunk>
    var current: nat
    var allocBytes: nat
    var used: nat

    /** Every chunk is one block with its ranges stacked, the newest is current, and the totals agree. */
    ghost predicate Valid() reads this {
      && 0 < block < HALF && chunks != [] && current == |chunks| - 1 && AllOk(chunks, block)
      && allocBytes == Blocks(|chunks|, block) <= cap
      && used == TotalSize(chunks)
    }

    constructor (block: nat, cap: nat)
      requires 0 < block < HALF && block <= cap
      ensures Valid() && this.block == block && this.cap == cap && chunks == [Chunk(block, 0, [])]
    {
      this.block, this.cap := block, cap;
      chunks, current, allocBytes, used := [Chunk(block, 0, [])], 0, block, 0;
      new;
      assert ChunkOk(chunks[0]);
      assert chunks[..0] == [];
    }

    /** `blocks_used`. */
    method BlocksUsed() returns (n: nat)
      requires Valid()
      ensures n == |chunks|
    {
      BlocksIsProduct(|chunks|, block);
      QuotientOf(|chunks|, block);
      n := allocBytes / block;
    }

    /** `try_new_chunk`: true without growing when the current chunk already serves, false for `ArenaFull`. */
    method TryNewChunk(l: Layout) returns (ok: bool)
      requires Valid() && GoodLayout(l)
      modifies this`chunks, this`current, this`allocBytes
      ensures Valid()
      ensures var fits := Fits(old(chunks[current]), l); var room := old(allocBytes) + block <= cap;
        && (ok <==> fits || room)
        && chunks == (if !fits && room then old(chunks) + [Chunk(block, 0, [])] else old(chunks))
        && allocBytes == (if !fits && room then old(allocBytes) + block else old(allocBytes))
    {
      var bump := chunks[current].bump;
      assert ChunkOk(chunks[current]);
      CheckIsFits(chunks[current], l);
      if AlignmentCheck(bump, l, chunks[current].len).Some? {
        return true;
      }
      if allocBytes + block > cap {
        return false;
      }
      TotalAppend(chunks, Chunk(block, 0, []));
      assert ChunkOk(Chunk(block, 0, []));
      allocBytes := allocBytes + block;
      chunks := chunks + [Chunk(block, 0, [])];
      current := |chunks| - 1;
      return true;
    }

    /** The winning compare-exchange and the count of used bytes. */
    method Bump(l: Layout, start: nat)
      requires Valid() && GoodLayout(l)
      requires AlignmentCheck(chunks[current].bump, l, chunks[current].len) == Some(start)
      modifies this`chunks, this`used
      ensures Valid()
      ensures chunks == old(chunks)[current := Granted(old(chunks)[current], l, start)]
    {
      var ch := chunks[current];
      assert ChunkOk(ch);
      GrantKeepsChunk(ch, l, start);
      TotalGrant(chunks, current, l, start);
      assert AllOk(chunks[current := Granted(ch, l, start)], block);
      chunks := chunks[current := Granted(ch, l, start)];
      assert |chunks| == |old(chunks)|;
      used := used + l.size;
    }

    /** `alloc_raw_fallback`; `None` for `ArenaFull`.  The weak compare-exchange fails `spurious` times
        although the bump has not changed. */
    method AllocRawFallback(l: Layout, spurious: nat) returns (r: Option<Place>)
      requires Valid() && GoodLayout(l)
      modifies this`chunks, this`current, this`allocBytes, this`used
      ensures Valid()
      ensures Outcome(block, cap, old(chunks), l, r, chunks)
    {
      ghost var before := chunks;
      var failures := spurious;
      while true
        invariant Valid()
        invariant Growing(block, before, l, chunks)
        decreases cap - allocBytes, failures
      {
        var ch := chunks[current];
        assert ChunkOk(ch);
        CheckIsFits(ch, l);
        match AlignmentCheck(ch.bump, l, ch.len) {
          case None =>
            ghost var was := chunks;
            var ok := TryNewChunk(l);
            if !ok {
              BlocksIsProduct(|chunks| + 1, block);
              FullOutcome(block, cap, before, l, chunks);
              return None;
            }
            GrowingStep(block, before, l, was);
          case Some(start) =>
            if failures == 0 {
              BlocksIsProduct(|chunks|, block);
              ServedOutcome(block, cap, before, l, chunks, start);
              r := Some(Place(current, start));
              Bump(l, start);
              return;
            }
            failures := failures - 1;
        }
      }
    }
  }

  /** What an allocation may do.  A layout within a block fails exactly when neither the current chunk nor
      a new block can serve it, and then nothing changes; otherwise it lies at the least offset that serves
      in the current chunk or, if none does, at the base of the one chunk added.  A longer layout always
      fails, having turned all remaining capacity into empty chunks. */
  ghost predicate Outcome(block: nat, cap: nat, before: seq<Chunk>, l: Layout, r: Option<Place>, after: seq<Chunk>)
    requires before != []
  {
    var c := |before| - 1;
    if l.size > block then r.None? && Padded(block, before, after) && (|after| + 1) * block > cap
    else if Fits(before[c], l) then
      && r.Some? && r.value.chunk == c && LeastFit(before[c], l, r.value.start)
      && after == before[c := Granted(before[c], l, r.value.start)]
    else if (|before| + 1) * block <= cap then
      r == Some(Place(|before|, 0)) && after == before + [Granted(Chunk(block, 0, []), l, 0)]
    else r.None? && after == before
  }

  /** Empty chunks were added. */
  ghost predicate Padded(block: nat, before: seq<Chunk>, after: seq<Chunk>) {
    before <= after && forall c | |before| <= c < |after| :: after[c] == Chunk(block, 0, [])
  }

  /** Between rounds of the loop: chunks were added only because the layout did not fit, and a second one
      only because it fits in no block. */
  ghost predicate Growing(block: nat, before: seq<Chunk>, l: Layout, chunks: seq<Chunk>) {
    && before != [] && Padded(block, before, chunks)
    && (|chunks| > |before| ==> !Fits(before[|before| - 1], l))
    && (|chunks| > |before| + 1 ==> l.size > block)
  }

  lemma {:induction false} PaddedLast(block: nat, before: seq<Chunk>, chunks: seq<Chunk>)
    requires before != [] && Padded(block, before, chunks)
    ensures if |chunks| == |before| then chunks == before else chunks[|chunks| - 1] == Chunk(block, 0, [])
  {
  }

  lemma {:induction false} GrowingStep(block: nat, before: seq<Chunk>, l: Layout, chunks: seq<Chunk>)
    requires block < HALF && GoodLayout(l) && Growing(block, before, l, chunks) && !Fits(chunks[|chunks| - 1], l)
    ensures Growing(block, before, l, chunks + [Chunk(block, 0, [])])
  {
    EmptyFits(block, l);
    PaddedLast(block, before, chunks);
  }

  lemma {:induction false} FullOutcome(block: nat, cap: nat, before: seq<Chunk>, l: Layout, chunks: seq<Chunk>)
    requires block < HALF && GoodLayout(l) && Growing(block, before, l, chunks) && !Fits(chunks[|chunks| - 1], l)
    requires (|chunks| + 1) * block > cap
    ensures Outcome(block, cap, before, l, None, chunks)
  {
    EmptyFits(block, l);
    PaddedLast(block, before, chunks);
  }

  lemma {:induction false} ServedOutcome(block: nat, cap: nat, before: seq<Chunk>, l: Layout, chunks: seq<Chunk>,
                                         start: nat)
    requires block < HALF && GoodLayout(l) && Growing(block, before, l, chunks)
    requires |chunks| * block <= cap && forall c | 0 <= c < |chunks| :: chunks[c].len == block
    requires LeastFit(chunks[|chunks| - 1], l, start)
    ensures var c := |chunks| - 1;
      Outcome(block, cap, before, l, Some(Place(c, start)), chunks[c := Granted(chunks[c], l, start)])
  {
    EmptyFits(block, l);
    PaddedLast(block, before, chunks);
    var c := |chunks| - 1;
    assert FitsAt(chunks[c], l, start);
    if |chunks| > |before| {
      assert FitsAt(Chunk(block, 0, []), l, 0) by { ModSmall(0, l.align); }
      assert chunks == before + [Chunk(block, 0, [])];
    }
  }

  /** A layout longer than a block leaves the arena with every chunk its capacity allows, the last of them
      empty if any was added, and nothing granted. */
  lemma {:induction false} OversizedExhausts(block: nat, cap: nat, before: seq<Chunk>, l: Layout, r: Option<Place>,
                                             after: seq<Chunk>)
    requires block >= 1 && before != [] && l.size > block && |after| * block <= cap
    requires Outcome(block, cap, before, l, r, after)
    ensures r.None? && |after| == cap / block && TotalSize(after) == TotalSize(before)
  {
    assert (|after| + 1) * block == |after| * block + block;
    DivModUnique(cap, block, |after|, cap - |after| * block);
    PaddingIsFree(block, before, after);
  }

  lemma {:induction false} PaddingIsFree(block: nat, before: seq<Chunk>, after: seq<Chunk>)
    requires Padded(block, before, after)
    ensures TotalSize(after) == TotalSize(before)
    decreases |after|
  {
    if |after| == |before| {
      assert after == before;
    } else {
      PaddingIsFree(block, before, after[..|after| - 1]);
    }
  }
}
