/** Internal keys: user key followed by an 8-byte big-endian trailer `(seq_no << 8) | op`, and the
    comparator that orders them. */
module InternalKey {
  import opened Basics
  import opened Bits
  import opened ByteOrder
  import opened SkipListHeap

  datatype OpType = Put | Delete | Merge | Max

  function Code(op: OpType): (c: Byte) {
    match op
    case Put => 1
    case Delete => 2
    case Merge => 3
    case Max => 255
  }

  /** `OperationType::from(u8)`; `None` where the source panics. */
  function OpOfCode(c: Byte): Option<OpType> {
    if c == 1 then Some(Put) else if c == 2 then Some(Delete) else if c == 3 then Some(Merge)
    else if c == 255 then Some(Max) else None
  }

  // ---------- Trailer ----------

  /** 2^56: sequence numbers are kept below it. */
  const SEQ_LIMIT: nat := 0x100_0000_0000_0000

  const OP_MASK: nat := 0xff

  /** `(seq_no << 8) | op` in a 64-bit word. */
  function PackTrailer(seqNo: nat, op: OpType): nat {
    Or(seqNo * 256 % WORD, Code(op))
  }

  /** `(trailer >> 8, trailer & 0xff)`. */
  function UnpackTrailer(trailer: nat): (nat, nat) {
    (trailer / 256, And(trailer, OP_MASK))
  }

  lemma {:induction false} OrByte(hi: nat, lo: Byte)
    ensures Or(hi * 256, lo) == hi * 256 + lo
  {
    Pow2Eight();
    OrShifted(hi, lo, 8);
  }

  lemma {:induction false} AndByte(hi: nat, lo: Byte)
    ensures And(hi * 256 + lo, OP_MASK) == lo
  {
    AndIsMod(hi * 256 + lo);
    DivModUnique(hi * 256 + lo, 256, hi, lo);
  }

  lemma {:induction false} AndIsMod(x: nat)
    ensures And(x, OP_MASK) == x % 256
  {
    Pow2Eight();
    AndLow(x, 8);
  }

  lemma {:induction false} PackIsSum(seqNo: nat, op: OpType)
    ensures PackTrailer(seqNo, op) == seqNo % SEQ_LIMIT * 256 + Code(op) < WORD
  {
    assert seqNo * 256 % WORD == seqNo % SEQ_LIMIT * 256;
    OrByte(seqNo % SEQ_LIMIT, Code(op));
  }

  /** The trailer gives back the operation and the sequence number modulo 2^56. */
  lemma {:induction false} UnpackPack(seqNo: nat, op: OpType)
    ensures UnpackTrailer(PackTrailer(seqNo, op)) == (seqNo % SEQ_LIMIT, Code(op))
  {
    var hi, lo := seqNo % SEQ_LIMIT, Code(op);
    PackIsSum(seqNo, op);
    AndByte(hi, lo);
    DivModUnique(hi * 256 + lo, 256, hi, lo);
  }

  /** The trailer keeps the sequence number exactly when it fits in 56 bits. */
  lemma {:induction false} TrailerKeepsSeqNo(seqNo: nat, op: OpType)
    ensures UnpackTrailer(PackTrailer(seqNo, op)).0 == seqNo <==> seqNo < SEQ_LIMIT
  {
    UnpackPack(seqNo, op);
    if seqNo < SEQ_LIMIT {
      ModSmall(seqNo, SEQ_LIMIT);
    } else {
      assert seqNo % SEQ_LIMIT < SEQ_LIMIT;
    }
  }

  lemma {:induction false} TrailerBytes(seqNo: nat, op: OpType)
    ensures FromBe(EncodeTrailer(seqNo, op)) == PackTrailer(seqNo, op)
  {
    PackIsSum(seqNo, op);
    WordIsPow2();
    FromToBe(PackTrailer(seqNo, op), 8);
  }

  lemma {:induction false} TrailerOrder(s1: nat, o1: OpType, s2: nat, o2: OpType)
    ensures Cmp(EncodeTrailer(s1, o1), EncodeTrailer(s2, o2)) == NumCmp(PackTrailer(s1, o1), PackTrailer(s2, o2))
  {
    PackIsSum(s1, o1);
    PackIsSum(s2, o2);
    WordIsPow2();
    BeOrder(PackTrailer(s1, o1), PackTrailer(s2, o2), 8);
  }

  // ---------- Keys ----------

  function EncodeTrailer(seqNo: nat, op: OpType): Bytes {
    ToBe(PackTrailer(seqNo, op), 8)
  }

  function EncodeKey(user: Bytes, seqNo: nat, op: OpType): Bytes {
    user + EncodeTrailer(seqNo, op)
  }

  /** `encode_into`: writes user key and trailer at the front of the caller's buffer. */
  method EncodeInto(dst: array<Byte>, user: Bytes, seqNo: nat, op: OpType)
    requires |user| + 8 <= dst.Length
    modifies dst
    ensures dst[..|user| + 8] == EncodeKey(user, seqNo, op)
    ensures dst[|user| + 8..] == old(dst[|user| + 8..])
  {
    CopyInto(dst, 0, user);
    CopyInto(dst, |user|, EncodeTrailer(seqNo, op));
    assert dst[..|user| + 8] == dst[..|user|] + dst[|user|..|user| + 8];
  }

  /** `copy_from_slice` into `dst[at..at + src.len()]`. */
  method CopyInto(dst: array<Byte>, at: nat, src: Bytes)
    requires at + |src| <= dst.Length
    modifies dst
    ensures dst[at..at + |src|] == src
    ensures dst[..at] == old(dst[..at]) && dst[at + |src|..] == old(dst[at + |src|..])
  {
    var i := 0;
    while i < |src|
      invariant i <= |src|
      invariant forall k | 0 <= k < i :: dst[at + k] == src[k]
      invariant forall k | 0 <= k < dst.Length && !(at <= k < at + i) :: dst[k] == old(dst[k])
    {
      dst[at + i] := src[i];
      i := i + 1;
    }
  }

  datatype KeyRef = KeyRef(user: Bytes, seqNo: nat, op: nat)

  /** Where `InternalKeyRef::from` and the comparator split a key.  Both panic on keys shorter than a
      trailer; here such a key is all trailer, so that the order is total. */
  function SplitAt(key: Bytes): (i: nat)
    ensures i <= |key|
  {
    if |key| >= 8 then |key| - 8 else 0
  }

  function UserOf(key: Bytes): Bytes { key[..SplitAt(key)] }

  function TrailerOf(key: Bytes): Bytes { key[SplitAt(key)..] }

  function DecodeKey(key: Bytes): KeyRef
    requires |key| >= 8
  {
    var (seqNo, op) := UnpackTrailer(FromBe(TrailerOf(key)));
    KeyRef(UserOf(key), seqNo, op)
  }

  /** `InternalKeyComparator::compare`: user key ascending, then trailer descending. */
  function CmpKeys(a: Bytes, b: Bytes): Ord {
    match Cmp(UserOf(a), UserOf(b))
    case Equal => Cmp(TrailerOf(b), TrailerOf(a))
    case other => other
  }

  predicate KeyLess(a: Bytes, b: Bytes) { CmpKeys(a, b) == ByteOrder.Less }

  lemma {:induction false} SplitEncoded(user: Bytes, seqNo: nat, op: OpType)
    ensures var k := EncodeKey(user, seqNo, op);
      |k| == |user| + 8 && UserOf(k) == user && TrailerOf(k) == EncodeTrailer(seqNo, op)
  {
  }

  lemma {:induction false} TrailerDecodes(seqNo: nat, op: OpType)
    requires seqNo < SEQ_LIMIT
    ensures UnpackTrailer(FromBe(EncodeTrailer(seqNo, op))) == (seqNo, Code(op))
  {
    TrailerBytes(seqNo, op);
    UnpackPack(seqNo, op);
    ModSmall(seqNo, SEQ_LIMIT);
  }

  /** Decoding inverts encoding for sequence numbers below 2^56. */
  lemma {:induction false} DecodeEncode(user: Bytes, seqNo: nat, op: OpType)
    requires seqNo < SEQ_LIMIT
    ensures DecodeKey(EncodeKey(user, seqNo, op)) == KeyRef(user, seqNo, Code(op))
  {
    SplitEncoded(user, seqNo, op);
    TrailerDecodes(seqNo, op);
  }

  /** Of two operations on one user key at one sequence number, the first counts as older. */
  predicate OlderKind(a: OpType, b: OpType) {
    match a
    case Put => b != Put
    case Delete => b == Merge || b == Max
    case Merge => b == Max
    case Max => false
  }

  lemma {:induction false} KindOrder(a: OpType, b: OpType)
    ensures NumCmp(Code(a), Code(b)) == ByteOrder.Less <==> OlderKind(a, b)
    ensures NumCmp(Code(a), Code(b)) == Equal <==> a == b
  {
  }

  /** The order that the comparator is meant to be, on decoded parts: user key ascending, then newer
      versions first. */
  ghost predicate PartsLess(u1: Bytes, s1: nat, o1: OpType, u2: Bytes, s2: nat, o2: OpType) {
    || LexLess(u1, u2)
    || (u1 == u2 && (s1 > s2 || (s1 == s2 && OlderKind(o2, o1))))
  }

  /** Trailers compare as (sequence number, operation). */
  lemma {:induction false} TrailerOrderIsVersionOrder(s1: nat, o1: OpType, s2: nat, o2: OpType)
    requires s1 < SEQ_LIMIT && s2 < SEQ_LIMIT
    ensures Cmp(EncodeTrailer(s1, o1), EncodeTrailer(s2, o2))
         == if s1 != s2 then NumCmp(s1, s2) else NumCmp(Code(o1), Code(o2))
  {
    TrailerOrder(s1, o1, s2, o2);
    PackOrder(s1, o1, s2, o2);
  }

  lemma {:induction false} PackOrder(s1: nat, o1: OpType, s2: nat, o2: OpType)
    requires s1 < SEQ_LIMIT && s2 < SEQ_LIMIT
    ensures NumCmp(PackTrailer(s1, o1), PackTrailer(s2, o2))
         == if s1 != s2 then NumCmp(s1, s2) else NumCmp(Code(o1), Code(o2))
  {
    PackSmall(s1, o1);
    PackSmall(s2, o2);
    SumOrder(s1, Code(o1), s2, Code(o2));
  }

  lemma {:induction false} SumOrder(s1: nat, c1: Byte, s2: nat, c2: Byte)
    ensures NumCmp(s1 * 256 + c1, s2 * 256 + c2) == if s1 != s2 then NumCmp(s1, s2) else NumCmp(c1, c2)
  {
  }

  lemma {:induction false} PackSmall(seqNo: nat, op: OpType)
    requires seqNo < SEQ_LIMIT
    ensures PackTrailer(seqNo, op) == seqNo * 256 + Code(op)
  {
    PackIsSum(seqNo, op);
  }

  lemma {:induction false} CmpSplit(u1: Bytes, t1: Bytes, u2: Bytes, t2: Bytes)
    requires |t1| == |t2| == 8
    ensures CmpKeys(u1 + t1, u2 + t2) == match Cmp(u1, u2) case Equal => Cmp(t2, t1) case other => other
  {
    var a, b := u1 + t1, u2 + t2;
    assert UserOf(a) == u1 && TrailerOf(a) == t1 && UserOf(b) == u2 && TrailerOf(b) == t2;
  }

  /** On encoded keys the comparator orders by user key ascending in dictionary order, then by sequence
      number and operation descending. */
  lemma {:induction false} CmpKeysIsCmpParts(u1: Bytes, s1: nat, o1: OpType, u2: Bytes, s2: nat, o2: OpType)
    requires s1 < SEQ_LIMIT && s2 < SEQ_LIMIT
    ensures CmpKeys(EncodeKey(u1, s1, o1), EncodeKey(u2, s2, o2)) == ByteOrder.Less
      <==> PartsLess(u1, s1, o1, u2, s2, o2)
    ensures CmpKeys(EncodeKey(u1, s1, o1), EncodeKey(u2, s2, o2)) == Equal <==> u1 == u2 && s1 == s2 && o1 == o2
  {
    CmpSplit(u1, EncodeTrailer(s1, o1), u2, EncodeTrailer(s2, o2));
    TrailerOrderIsVersionOrder(s2, o2, s1, o1);
    CmpIsLexicographic(u1, u2);
    CmpEqual(u1, u2);
    KindOrder(o2, o1);
    if u1 == u2 {
      LexIrreflexive(u1);
    }
  }

  lemma {:induction false} LexIrreflexive(a: Bytes)
    ensures !LexLess(a, a)
  {
    CmpIsLexicographic(a, a);
    CmpEqual(a, a);
  }

  lemma {:induction false} TrailerDigit(seqNo: nat, op: OpType, i: nat)
    requires seqNo < SEQ_LIMIT && i < 8
    ensures |EncodeTrailer(seqNo, op)| == 8
    ensures EncodeTrailer(seqNo, op)[i] == if i < 7 then seqNo / Power(6 - i) % 256 else Code(op)
  {
    var x, t := seqNo * 256 + Code(op), EncodeTrailer(seqNo, op);
    PackSmall(seqNo, op);
    DivModUnique(x, 256, seqNo, Code(op));
    BeDigit(x, 8, i);
    if i < 7 {
      DivTwice(x, Power(6 - i));
    }
  }

  /** The byte at position `i` of an encoded key: the user key, seven bytes of sequence number, highest
      first, and the operation. */
  lemma {:induction false} EncodedByte(user: Bytes, seqNo: nat, op: OpType, i: nat)
    requires seqNo < SEQ_LIMIT && i < |user| + 8
    ensures var k := EncodeKey(user, seqNo, op);
      && |k| == |user| + 8
      && (i < |user| ==> k[i] == user[i])
      && (|user| <= i < |user| + 7 ==> k[i] == seqNo / Power(|user| + 6 - i) % 256)
      && (i == |user| + 7 ==> k[i] == match op case Put => 1 case Delete => 2 case Merge => 3 case Max => 255)
  {
    SplitEncoded(user, seqNo, op);
    if i >= |user| {
      TrailerDigit(seqNo, op, i - |user|);
    }
  }

  /** The comparator returns `Equal` only on identical bytes. */
  lemma {:induction false} CmpKeysEqual(a: Bytes, b: Bytes)
    ensures CmpKeys(a, b) == Equal <==> a == b
  {
    CmpEqual(UserOf(a), UserOf(b));
    CmpEqual(TrailerOf(b), TrailerOf(a));
    PartsMakeKey(a);
    PartsMakeKey(b);
  }

  lemma {:induction false} PartsMakeKey(a: Bytes)
    ensures UserOf(a) + TrailerOf(a) == a
  {
  }

  lemma {:induction false} CmpKeysFlips(a: Bytes, b: Bytes)
    ensures CmpKeys(b, a) == Flip(CmpKeys(a, b))
  {
    CmpFlips(UserOf(a), UserOf(b));
    CmpFlips(TrailerOf(a), TrailerOf(b));
  }

  lemma {:induction false} CmpKeysTransitive(a: Bytes, b: Bytes, c: Bytes)
    requires CmpKeys(a, b) != Greater && CmpKeys(b, c) != Greater
    ensures CmpKeys(a, c) != Greater
    ensures CmpKeys(a, b) == ByteOrder.Less || CmpKeys(b, c) == ByteOrder.Less ==> CmpKeys(a, c) == ByteOrder.Less
  {
    CmpTransitive(UserOf(a), UserOf(b), UserOf(c));
    CmpEqual(UserOf(a), UserOf(b));
    CmpEqual(UserOf(b), UserOf(c));
    CmpEqual(UserOf(a), UserOf(c));
    if UserOf(a) == UserOf(b) == UserOf(c) {
      CmpTransitive(TrailerOf(c), TrailerOf(b), TrailerOf(a));
    }
  }

  /** The comparator is a strict weak order, as the skip list needs. */
  lemma {:induction false} KeyLessIsStrictWeakOrder()
    ensures StrictWeakOrder(KeyLess)
  {
    forall a: Bytes, b: Bytes, c: Bytes
      ensures OrderLaws(KeyLess, a, b, c)
    {
      CmpKeysEqual(a, a);
      CmpKeysFlips(a, b);
      CmpKeysFlips(b, c);
      CmpKeysFlips(a, c);
      if CmpKeys(a, b) != Greater && CmpKeys(b, c) != Greater {
        CmpKeysTransitive(a, b, c);
      }
      if CmpKeys(c, b) != Greater && CmpKeys(b, a) != Greater {
        CmpKeysTransitive(c, b, a);
      }
    }
  }

  /** `DefaultComparator` as an order. */
  predicate BytesLess(a: Bytes, b: Bytes) { Cmp(a, b) == ByteOrder.Less }

  /** The default comparator is the order of the dictionary. */
  lemma {:induction false} BytesLessIsLexLess(a: Bytes, b: Bytes)
    ensures BytesLess(a, b) <==> LexLess(a, b)
  {
    CmpIsLexicographic(a, b);
  }

  lemma {:induction false} BytesLessIsStrictWeakOrder()
    ensures StrictWeakOrder(BytesLess)
  {
    forall a: Bytes, b: Bytes, c: Bytes
      ensures OrderLaws(BytesLess, a, b, c)
    {
      CmpEqual(a, a);
      CmpFlips(a, b);
      CmpFlips(b, c);
      CmpFlips(a, c);
      if Cmp(a, b) != Greater && Cmp(b, c) != Greater {
        CmpTransitive(a, b, c);
      }
      if Cmp(c, b) != Greater && Cmp(b, a) != Greater {
        CmpTransitive(c, b, a);
      }
    }
  }
}
