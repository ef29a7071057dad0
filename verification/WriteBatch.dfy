/**
  Write batches: a 12-byte header (sequence number, operation count) followed by framed operations.
  The framing grammar is stated on its own, with a reader that accepts exactly its sentences, and the
  buffer that `put_bytes` builds is shown to have one parse: the operations that were put.
 */
module WriteBatch {
  import opened Basics
  import opened Bits
  import opened ByteOrder
  import opened VarInt

  const HEADER_SIZE: nat := 12
  const COUNT_OFFSET: nat := 8

  // ---------- The grammar ----------

  /** One operation as its fields lie in the buffer. */
  datatype Record = Record(kind: Byte, cf: Bytes, keyLen: Bytes, key: Bytes, valueLen: Bytes, value: Bytes)

  /** `len` is one terminated variable-length integer, of value `n`. */
  predicate IsVarInt(len: Bytes, n: nat) {
    len != [] && len[|len| - 1] < 128 && Decoded(len) == Some((n, |len|))
  }

  /** Operation type 1 to 3, four bytes of column family, and two length-prefixed strings. */
  predicate IsRecord(r: Record) {
    1 <= r.kind <= 3 && |r.cf| == 4 && IsVarInt(r.keyLen, |r.key|) && IsVarInt(r.valueLen, |r.value|)
  }

  function Text(r: Record): Bytes {
    [r.kind] + r.cf + r.keyLen + r.key + r.valueLen + r.value
  }

  function Texts(rs: seq<Record>): Bytes {
    if rs == [] then [] else Text(rs[0]) + Texts(rs[1..])
  }

  ghost predicate AreRecords(rs: seq<Record>) {
    forall i | 0 <= i < |rs| :: IsRecord(rs[i])
  }

  // ---------- A reader for it ----------

  datatype Blob = Blob(len: Bytes, text: Bytes, rest: Bytes)

  function ReadBlob(bs: Bytes): Option<Blob> {
    match Decoded(bs)
    case None => None
    case Some((n, used)) =>
      if 1 <= used <= |bs| && bs[used - 1] < 128 && used + n <= |bs|
      then Some(Blob(bs[..used], bs[used..used + n], bs[used + n..]))
      else None
  }

  function ReadRecord(bs: Bytes): Option<(Record, Bytes)> {
    if |bs| < 5 || !(1 <= bs[0] <= 3) then None
    else
      match ReadBlob(bs[5..])
      case None => None
      case Some(k) =>
        match ReadBlob(k.rest)
        case None => None
        case Some(v) => Some((Record(bs[0], bs[1..5], k.len, k.text, v.len, v.text), v.rest))
  }

  function ReadRecords(bs: Bytes): Option<seq<Record>>
    decreases |bs|
  {
    if bs == [] then Some([])
    else
      match ReadRecord(bs)
      case None => None
      case Some((r, rest)) =>
        if |rest| >= |bs| then None
        else match ReadRecords(rest) case None => None case Some(rs) => Some([r] + rs)
  }

  // ---------- The reader accepts exactly the grammar ----------

  lemma {:induction false} ExtentAppend(len: Bytes, rest: Bytes)
    requires len != [] && len[|len| - 1] < 128 && Extent(len) == |len|
    ensures Extent(len + rest) == |len|
  {
    assert (len + rest)[0] == len[0];
    if |len| > 1 {
      assert len[0] >= 128;
      assert (len + rest)[1..] == len[1..] + rest;
      ExtentAppend(len[1..], rest);
    }
  }

  lemma {:induction false} ExtentPrefix(bs: Bytes)
    ensures Extent(bs[..Extent(bs)]) == Extent(bs)
  {
    if bs != [] && bs[0] >= 128 {
      ExtentPrefix(bs[1..]);
      assert bs[..Extent(bs)][1..] == bs[1..][..Extent(bs[1..])];
    }
  }

  lemma {:induction false} BlobReads(len: Bytes, text: Bytes, rest: Bytes)
    requires IsVarInt(len, |text|)
    ensures ReadBlob(len + text + rest) == Some(Blob(len, text, rest))
  {
    var bs := len + text + rest;
    assert bs == len + (text + rest);
    ExtentAppend(len, text + rest);
    assert len[..|len|] == len;
    assert bs[..|len|] == len && bs[|len|..|len| + |text|] == text && bs[|len| + |text|..] == rest;
  }

  lemma {:induction false} BlobIsRead(bs: Bytes)
    requires ReadBlob(bs).Some?
    ensures var b := ReadBlob(bs).value; IsVarInt(b.len, |b.text|) && bs == b.len + b.text + b.rest
  {
    var n := Extent(bs);
    ExtentPrefix(bs);
    assert bs[..n][..n] == bs[..n];
  }

  lemma {:induction false} RecordReads(r: Record, rest: Bytes)
    requires IsRecord(r)
    ensures ReadRecord(Text(r) + rest) == Some((r, rest))
  {
    var bs := Text(r) + rest;
    assert bs[0] == r.kind && bs[1..5] == r.cf;
    var tail := r.valueLen + r.value + rest;
    assert bs[5..] == r.keyLen + r.key + tail;
    BlobReads(r.keyLen, r.key, tail);
    BlobReads(r.valueLen, r.value, rest);
  }

  lemma {:induction false} TextSplits(r: Record, rest: Bytes, bs: Bytes)
    requires |bs| >= 5 && bs[0] == r.kind && bs[1..5] == r.cf
    requires bs[5..] == r.keyLen + r.key + (r.valueLen + r.value + rest)
    ensures bs == Text(r) + rest
  {
    var tail := bs[5..];
    assert bs == [bs[0]] + bs[1..5] + tail;
    assert [r.kind] + r.cf + tail == Text(r) + rest;
  }

  lemma {:induction false} RecordIsRead(bs: Bytes)
    requires ReadRecord(bs).Some?
    ensures var (r, rest) := ReadRecord(bs).value; IsRecord(r) && bs == Text(r) + rest
  {
    var (r, rest) := ReadRecord(bs).value;
    BlobIsRead(bs[5..]);
    BlobIsRead(ReadBlob(bs[5..]).value.rest);
    TextSplits(r, rest, bs);
  }

  lemma {:induction false} ReadsFirst(bs: Bytes, r: Record, rest: Bytes, rs: seq<Record>)
    requires ReadRecord(bs) == Some((r, rest)) && bs != [] && |rest| < |bs| && ReadRecords(rest) == Some(rs)
    ensures ReadRecords(bs) == Some([r] + rs)
  {
  }

  /** Every sentence of the grammar is read back. */
  lemma {:induction false} RecordsRead(rs: seq<Record>)
    requires AreRecords(rs)
    ensures ReadRecords(Texts(rs)) == Some(rs)
  {
    if rs != [] {
      var rest := Texts(rs[1..]);
      assert Texts(rs) == Text(rs[0]) + rest;
      RecordReads(rs[0], rest);
      RecordsRead(rs[1..]);
      ReadsFirst(Texts(rs), rs[0], rest, rs[1..]);
      assert [rs[0]] + rs[1..] == rs;
    }
  }

  /** Whatever is read is a sentence of the grammar with that text. */
  lemma {:induction false} RecordsAreRead(bs: Bytes)
    requires ReadRecords(bs).Some?
    ensures AreRecords(ReadRecords(bs).value) && Texts(ReadRecords(bs).value) == bs
    decreases |bs|
  {
    if bs != [] {
      RecordIsRead(bs);
      var (r, rest) := ReadRecord(bs).value;
      RecordsAreRead(rest);
      var rs := ReadRecords(rest).value;
      assert ([r] + rs)[1..] == rs;
    }
  }

  /** The grammar is unambiguous: one text has one derivation. */
  lemma {:induction false} Unambiguous(rs: seq<Record>, qs: seq<Record>)
    requires AreRecords(rs) && AreRecords(qs) && Texts(rs) == Texts(qs)
    ensures rs == qs
  {
    RecordsRead(rs);
    RecordsRead(qs);
  }

  // ---------- Batches ----------

  lemma {:induction false} FromToLe32(x: nat)
    requires x < U32
    ensures FromLe(Le32(x)) == x
  {
    HalfWords();
    FromToLe(x, 4);
  }

  /** A 32-bit word, least significant byte first. */
  function Le32(x: nat): (r: Bytes)
    ensures |r| == 4
  {
    ToLe(x, 4)
  }

  const SEQ_NO: Bytes := [0, 0, 0, 0, 0, 0, 0, 0]

  datatype Put = Put(key: Bytes, value: Bytes)

  /** The fields `put_bytes` writes: type 1, column family 0, lengths cast to 32 bits. */
  function PutRecord(p: Put): Record {
    Record(1, [0, 0, 0, 0], Leb(|p.key| % U32), p.key, Leb(|p.value| % U32), p.value)
  }

  function PutRecords(puts: seq<Put>): seq<Record> {
    seq(|puts|, i requires 0 <= i < |puts| => PutRecord(puts[i]))
  }

  /** A batch as the puts made so far determine it. */
  function BatchData(puts: seq<Put>): Bytes {
    SEQ_NO + Le32(|puts|) + Texts(PutRecords(puts))
  }

  lemma {:induction false} TextsAppend(rs: seq<Record>, r: Record)
    ensures Texts(rs + [r]) == Texts(rs) + Text(r)
  {
    if rs == [] {
      assert rs + [r] == [r] && [r][1..] == [];
    } else {
      assert (rs + [r])[1..] == rs[1..] + [r];
      TextsAppend(rs[1..], r);
    }
  }

  /** What the header and body of a batch hold. */
  lemma {:induction false} BatchParts(puts: seq<Put>)
    ensures |BatchData(puts)| >= HEADER_SIZE
    ensures BatchData(puts)[COUNT_OFFSET..HEADER_SIZE] == Le32(|puts|)
    ensures BatchData(puts)[HEADER_SIZE..] == Texts(PutRecords(puts))
  {
  }

  ghost predicate Short(p: Put) { |p.key| < LIMIT && |p.value| < LIMIT }

  lemma {:induction false} LengthIsVarInt(n: nat)
    requires n < LIMIT
    ensures IsVarInt(Leb(n), n)
  {
    RoundTrip(n, []);
    assert Leb(n) + [] == Leb(n);
    LebEnds(n);
  }

  lemma {:induction false} LebEnds(v: nat)
    ensures Leb(v) != [] && Leb(v)[|Leb(v)| - 1] < 128
  {
    if v >= 128 {
      LebEnds(v / 128);
    }
  }

  /** Of the puts that `put_bytes` completes, the framing is a sentence of the grammar exactly for those
      whose lengths are below 2^28; from 2^32 on a length is cut to 32 bits. */
  lemma {:induction false} PutIsRecordIffShort(p: Put)
    requires |p.key| % U32 < LIMIT && |p.value| % U32 < LIMIT
    ensures IsRecord(PutRecord(p)) <==> Short(p)
  {
    LengthIsVarInt(|p.key| % U32);
    LengthIsVarInt(|p.value| % U32);
  }

  lemma {:induction false} PutsAreRecords(puts: seq<Put>)
    requires forall i | 0 <= i < |puts| :: Short(puts[i])
    ensures AreRecords(PutRecords(puts))
  {
    forall i | 0 <= i < |puts|
      ensures IsRecord(PutRecord(puts[i]))
    {
      assert Short(puts[i]);
      PutIsRecordIffShort(puts[i]);
    }
  }

  /** These records say: put each key and value, in this order. */
  ghost predicate Say(rs: seq<Record>, puts: seq<Put>) {
    && |rs| == |puts|
    && forall i | 0 <= i < |puts| ::
         rs[i].kind == 1 && rs[i].cf == [0, 0, 0, 0] && rs[i].key == puts[i].key && rs[i].value == puts[i].value
  }

  /** The bytes of one put: type 1, column family 0, and key and value, each after its length. */
  lemma {:induction false} PutBytesAre(p: Put)
    requires Short(p)
    ensures Text(PutRecord(p)) == [1, 0, 0, 0, 0] + Leb(|p.key|) + p.key + Leb(|p.value|) + p.value
  {
    ModSmall(|p.key|, U32);
    ModSmall(|p.value|, U32);
  }

  /** The header: eight zeros where the sequence number will go, then the count, lowest byte first. */
  lemma {:induction false} HeaderBytesAre(puts: seq<Put>, k: nat)
    requires k < 12
    ensures |BatchData(puts)| >= 12 && BatchData(puts)[k] == if k < 8 then 0 else |puts| / Power(k - 8) % 256
  {
    BatchParts(puts);
    if k >= 8 {
      LeDigit(|puts|, 4, k - 8);
      assert BatchData(puts)[k] == BatchData(puts)[COUNT_OFFSET..HEADER_SIZE][k - 8];
    }
  }

  /** Any sequence of puts leaves a buffer with exactly one parse, the puts themselves in order, and a
      count equal to their number. */
  lemma {:induction false} BatchParses(puts: seq<Put>)
    requires |puts| < U32 && forall i | 0 <= i < |puts| :: Short(puts[i])
    ensures |BatchData(puts)| >= HEADER_SIZE && FromLe(BatchData(puts)[COUNT_OFFSET..HEADER_SIZE]) == |puts|
    ensures ReadRecords(BatchData(puts)[HEADER_SIZE..]) == Some(PutRecords(puts)) && Say(PutRecords(puts), puts)
    ensures forall rs: seq<Record> | AreRecords(rs) && Texts(rs) == BatchData(puts)[HEADER_SIZE..] :: Say(rs, puts)
  {
    BatchParts(puts);
    FromToLe32(|puts|);
    PutsAreRecords(puts);
    RecordsRead(PutRecords(puts));
    forall rs: seq<Record> | AreRecords(rs) && Texts(rs) == BatchData(puts)[HEADER_SIZE..]
      ensures Say(rs, puts)
    {
      Unambiguous(rs, PutRecords(puts));
    }
  }

  /** `put_bytes` completes. */
  ghost predicate Completes(p: Put) { |p.key| % U32 < LIMIT && |p.value| % U32 < LIMIT }

  ghost predicate AllShort(puts: seq<Put>) {
    forall i | 0 <= i < |puts| :: Short(puts[i])
  }

  /** The body of the batch has a parse that says what was put. */
  ghost predicate ParsesBack(puts: seq<Put>) {
    exists rs: seq<Record> :: IsParse(rs, puts)
  }

  ghost predicate IsParse(rs: seq<Record>, puts: seq<Put>) {
    AreRecords(rs) && Texts(rs) == Texts(PutRecords(puts)) && Say(rs, puts)
  }

  /** A length that a variable-length integer denotes has at most 32 bits. */
  lemma {:induction false} VarIntIsWord(len: Bytes, n: nat)
    requires IsVarInt(len, n)
    ensures n < U32
  {
  }

  /** Of completed puts, the buffer parses back to them if and only if all lengths are below 2^28. */
  lemma {:induction false} BatchParsesIffShort(puts: seq<Put>)
    requires forall i | 0 <= i < |puts| :: Completes(puts[i])
    ensures ParsesBack(puts) <==> AllShort(puts)
  {
    if ParsesBack(puts) {
      var rs: seq<Record> :| IsParse(rs, puts);
      forall i | 0 <= i < |puts|
        ensures Short(puts[i])
      {
        assert IsRecord(rs[i]) && Completes(puts[i]);
        VarIntIsWord(rs[i].keyLen, |puts[i].key|);
        VarIntIsWord(rs[i].valueLen, |puts[i].value|);
        ModSmall(|puts[i].key|, U32);
        ModSmall(|puts[i].value|, U32);
      }
    }
    if AllShort(puts) {
      PutsAreRecords(puts);
      assert IsParse(PutRecords(puts), puts);
    }
  }

  // ---------- The buffer ----------

  class Batch {
    var data: Bytes
    ghost var puts: seq<Put>

    ghost predicate Valid() reads this {
      data == BatchData(puts) && |puts| < U32
    }

    constructor ()
      ensures Valid() && puts == []
    {
      data := seq(HEADER_SIZE, _ => 0);
      puts := [];
      new;
      assert Le32(0) == [0, 0, 0, 0] by { assert ToLe(0, 2) == [0, 0]; }
      assert Texts(PutRecords([])) == [];
      assert data == BatchData([]);
    }

    /** `put_bytes`; false where the source panics: a length too long for a variable-length integer, or a
        count past 32 bits.  The buffer then keeps what was written before the panic. */
    method PutBytes(key: Bytes, value: Bytes) returns (ok: bool)
      requires Valid()
      modifies this
      ensures ok <==> |key| % U32 < LIMIT && |value| % U32 < LIMIT && |old(puts)| + 1 < U32
      ensures ok ==> Valid() && puts == old(puts) + [Put(key, value)]
      ensures !ok ==> old(data) <= data && puts == old(puts)
    {
      BatchParts(puts);
      ok := AppendFrame(key, value);
      if ok {
        assert data[COUNT_OFFSET..HEADER_SIZE] == Le32(|puts|);
        FromToLe32(|puts|);
        ok := IncrementCount();
        if ok {
          DataAppend(puts, Put(key, value));
          puts := puts + [Put(key, value)];
        }
      }
    }

    /** The writes to the end of the buffer. */
    method AppendFrame(key: Bytes, value: Bytes) returns (ok: bool)
      modifies this`data
      ensures ok <==> |key| % U32 < LIMIT && |value| % U32 < LIMIT
      ensures ok ==> data == old(data) + Text(PutRecord(Put(key, value)))
      ensures !ok ==> old(data) <= data
    {
      data := data + [1];
      data := data + [0, 0, 0, 0];
      var keyLen := New(|key| % U32);
      if keyLen.None? {
        return false;
      }
      data := data + keyLen.value.AsSlice();
      data := data + key;
      var valueLen := New(|value| % U32);
      if valueLen.None? {
        return false;
      }
      data := data + valueLen.value.AsSlice();
      data := data + value;
      FrameAppended(old(data), Put(key, value));
      ok := true;
    }

    /** The write to the header. */
    method IncrementCount() returns (ok: bool)
      requires |data| >= HEADER_SIZE
      modifies this`data
      ensures var count := FromLe(old(data)[COUNT_OFFSET..HEADER_SIZE]);
        && (ok <==> count + 1 < U32)
        && data == if ok then old(data)[..COUNT_OFFSET] + Le32(count + 1) + old(data)[HEADER_SIZE..] else old(data)
    {
      var count := FromLe(data[COUNT_OFFSET..HEADER_SIZE]) + 1;
      if count >= U32 {
        return false;
      }
      data := data[..COUNT_OFFSET] + Le32(count) + data[HEADER_SIZE..];
      ok := true;
    }

    /** `batch_count`. */
    method BatchCount() returns (n: nat)
      requires Valid()
      ensures n == |puts|
    {
      BatchParts(puts);
      FromToLe32(|puts|);
      n := FromLe(data[COUNT_OFFSET..HEADER_SIZE]);
    }
  }

  lemma {:induction false} FrameAppended(data: Bytes, p: Put)
    ensures data + [1] + [0, 0, 0,
      0] + Leb(|p.key| % U32) + p.key + Leb(|p.value| % U32) + p.value == data + Text(PutRecord(p))
  {
  }

  /** Appending a framed put and rewriting the count gives the batch with that put. */
  lemma {:induction false} DataAppend(puts: seq<Put>, p: Put)
    ensures |BatchData(puts)| >= HEADER_SIZE
    ensures var data := BatchData(puts) + Text(PutRecord(p));
      data[..COUNT_OFFSET] + Le32(|puts| + 1) + data[HEADER_SIZE..] == BatchData(puts + [p])
  {
    assert PutRecords(puts + [p]) == PutRecords(puts) + [PutRecord(p)];
    TextsAppend(PutRecords(puts), PutRecord(p));
    CountRewritten(Le32(|puts|), Le32(|puts| + 1), Texts(PutRecords(puts)), Text(PutRecord(p)));
  }

  lemma {:induction false} CountRewritten(count: Bytes, count': Bytes, body: Bytes, frame: Bytes)
    requires |count| == |count'| == 4
    ensures |SEQ_NO + count + body| >= HEADER_SIZE
    ensures var data := SEQ_NO + count + body + frame;
      data[..COUNT_OFFSET] + count' + data[HEADER_SIZE..] == SEQ_NO + count' + (body + frame)
  {
    var data := SEQ_NO + count + body + frame;
    assert data[..COUNT_OFFSET] == SEQ_NO && data[HEADER_SIZE..] == body + frame;
  }
}
