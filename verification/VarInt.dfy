/** Variable-length integers: unsigned LEB128 (section 7.6 of DWARF Version 5) in at most four bytes. */
module VarInt {
  import opened Basics
  import opened Bits

  const U32: nat := 0x1_0000_0000

  /** 2^28: the first value that does not fit in four bytes. */
  const LIMIT: nat := 0x1000_0000

  const LOW7: nat := 0x7F
  const MSB: nat := 0x80

  datatype VarInt =
    | One(b0: Byte)
    | Two(b0: Byte, b1: Byte)
    | Three(b0: Byte, b1: Byte, b2: Byte)
    | Four(b0: Byte, b1: Byte, b2: Byte, b3: Byte)
  {
    function AsSlice(): (r: Bytes)
      ensures 1 <= |r| <= 4
    {
      match this
      case One(b0) => [b0]
      case Two(b0, b1) => [b0, b1]
      case Three(b0, b1, b2) => [b0, b1, b2]
      case Four(b0, b1, b2, b3) => [b0, b1, b2, b3]
    }
  }

  // ---------- What the bytes mean ----------

  /** Base-128 digits of `v`, least significant first, all but the last marked by their top bit. */
  function Leb(v: nat): (r: Bytes) {
    if v < 128 then [v] else [v % 128 + 128] + Leb(v / 128)
  }

  /** The number whose base-128 digits are the low seven bits of the bytes. */
  function Value(bs: Bytes): nat {
    if bs == [] then 0 else bs[0] % 128 + 128 * Value(bs[1..])
  }

  /** How many bytes are read: through the first one below 128, or all of them. */
  function Extent(bs: Bytes): (n: nat)
    ensures n <= |bs|
  {
    if bs == [] then 0 else if bs[0] < 128 then 1 else 1 + Extent(bs[1..])
  }

  /** What decoding yields: the number modulo 2^32 and the bytes read, or `None` where a sixth byte
      would be shifted by 35 bits. */
  function Decoded(bs: Bytes): Option<(nat, nat)> {
    var n := Extent(bs);
    if n <= 5 then Some((Value(bs[..n]) % U32, n)) else None
  }

  // ---------- Digits ----------

  lemma {:induction false} Sevens()
    ensures Pow2(0) == 1 && Pow2(7) == 128 && Pow2(14) == 16384 && Pow2(21) == 2097152 && Pow2(28) == LIMIT
  {
    assert Pow2(4) == 16 && Pow2(3) == 8;
    Pow2Add(4, 3);
    Pow2Add(7, 7);
    Pow2Add(7, 14);
    Pow2Add(14, 14);
  }

  lemma {:induction false} Pow2Seven()
    ensures Pow2(7) == 128
  {
    assert Pow2(4) == 16 && Pow2(3) == 8;
    Pow2Add(4, 3);
  }

  lemma {:induction false} ValueAppend(bs: Bytes, b: Byte)
    ensures Value(bs + [b]) == Value(bs) + (b % 128) * Pow2(7 * |bs|)
  {
    if bs == [] {
      assert bs + [b] == [b] && [b][1..] == [];
    } else {
      var tail := bs[1..];
      assert (bs + [b])[1..] == tail + [b];
      ValueAppend(tail, b);
      Pow2Seven();
      Pow2Add(7, 7 * |tail|);
      assert 128 * ((b % 128) * Pow2(7 * |tail|)) == (b % 128) * (128 * Pow2(7 * |tail|));
    }
  }

  lemma {:induction false} ValueBound(bs: Bytes)
    ensures Value(bs) < Pow2(7 * |bs|)
  {
    if bs != [] {
      var tail := bs[1..];
      ValueBound(tail);
      Pow2Seven();
      Pow2Add(7, 7 * |tail|);
    }
  }

  function Power128(k: nat): (p: nat)
    ensures p >= 1
  {
    if k == 0 then 1 else 128 * Power128(k - 1)
  }

  lemma {:induction false} DivTwice128(x: nat, p: nat)
    requires p >= 1
    ensures x / 128 / p == x / (128 * p)
  {
    var q, r := x / 128 / p, x / 128 % p;
    assert x == 128 * (x / 128) + x % 128 && x / 128 == p * q + r;
    assert x == (128 * p) * q + (128 * r + x % 128) by {
      assert 128 * (p * q) == (128 * p) * q;
    }
    DivModUnique(x, 128 * p, q, 128 * r + x % 128);
  }

  /** Byte `k` is the digit of 128^k, with the top bit set on all bytes but the last. */
  lemma {:induction false} LebDigit(v: nat, k: nat)
    requires k < |Leb(v)|
    ensures Leb(v)[k] == v / Power128(k) % 128 + (if k + 1 < |Leb(v)| then 128 else 0)
  {
    if k > 0 {
      LebDigit(v / 128, k - 1);
      DivTwice128(v, Power128(k - 1));
    }
  }

  lemma {:induction false} LebMeans(v: nat)
    ensures Value(Leb(v)) == v
  {
    if v >= 128 {
      LebMeans(v / 128);
      assert Leb(v)[1..] == Leb(v / 128);
    } else {
      assert Leb(v)[1..] == [];
    }
  }

  lemma {:induction false} LebExtent(v: nat, rest: Bytes)
    ensures Extent(Leb(v) + rest) == |Leb(v)|
  {
    if v >= 128 {
      LebExtent(v / 128, rest);
      assert (Leb(v) + rest)[1..] == Leb(v / 128) + rest;
    }
  }

  /** `n` bytes are enough exactly when `v` is below 128^n. */
  lemma {:induction false} LebLength(v: nat, n: nat)
    requires n >= 1
    ensures |Leb(v)| <= n <==> v < Pow2(7 * n)
  {
    Pow2Seven();
    if n == 1 {
    } else {
      Pow2Add(7, 7 * (n - 1));
      if v >= 128 {
        LebLength(v / 128, n - 1);
      } else {
        assert Pow2(7 * (n - 1)) >= 1;
      }
    }
  }

  lemma {:induction false} FitsFour(v: nat)
    ensures |Leb(v)| <= 4 <==> v < LIMIT
  {
    Sevens();
    LebLength(v, 4);
  }

  /** Decoding an encoded number followed by any bytes gives the number and its exact length. */
  lemma {:induction false} RoundTrip(v: nat, rest: Bytes)
    requires v < LIMIT
    ensures Decoded(Leb(v) + rest) == Some((v, |Leb(v)|)) && 1 <= |Leb(v)| <= 4
  {
    LebExtent(v, rest);
    LebMeans(v);
    FitsFour(v);
    assert (Leb(v) + rest)[..|Leb(v)|] == Leb(v);
  }

  // ---------- new ----------

  lemma {:induction false} LowSeven(v: nat)
    ensures And(v, LOW7) == v % 128
    ensures Or(And(v, LOW7), MSB) == v % 128 + 128
  {
    Pow2Seven();
    AndLow(v, 7);
    OrCommutes(v % 128, 128);
    OrShifted(1, v % 128, 7);
  }

  /** The variant that holds the first `n` bytes of the buffer. */
  method Pick(buf: array<Byte>, n: nat) returns (r: VarInt)
    requires buf.Length == 4 && 1 <= n <= 4
    ensures r.AsSlice() == buf[..n]
  {
    match n {
      case 1 => r := One(buf[0]);
      case 2 => r := Two(buf[0], buf[1]);
      case 3 => r := Three(buf[0], buf[1], buf[2]);
      case _ => r := Four(buf[0], buf[1], buf[2], buf[3]);
    }
  }

  /** The low seven bits with the continuation bit. */
  function Continued(v: nat): (b: Byte)
    ensures b == v % 128 + 128
  {
    LowSeven(v);
    Or(And(v, LOW7), MSB)
  }

  lemma {:induction false} LebStep(done: Bytes, v: nat)
    requires v > 127
    ensures (done + [v % 128 + 128]) + Leb(v / 128) == done + Leb(v)
  {
  }

  /** `VarInt::new`; `None` where the source indexes past its four-byte buffer. */
  method New(value: nat) returns (r: Option<VarInt>)
    requires value < U32
    ensures r.Some? <==> value < LIMIT
    ensures r.Some? ==> r.value.AsSlice() == Leb(value)
  {
    FitsFour(value);
    var buf := new Byte[4](_ => 0);
    var v, i := value, 0;
    while v > 127
      invariant 0 <= i <= 4
      invariant buf[..i] + Leb(v) == Leb(value)
    {
      if i == 4 {
        assert |Leb(value)| == |buf[..i]| + |Leb(v)| > 4;
        return None;
      }
      ghost var done := buf[..i];
      LebStep(done, v);
      buf[i] := Continued(v);
      assert buf[..i + 1] == done + [v % 128 + 128];
      v := v / 128;
      i := i + 1;
    }
    assert |Leb(value)| == i + 1;
    if i == 4 {
      return None;
    }
    buf[i] := v;
    assert buf[..i + 1] == Leb(value);
    var code := Pick(buf, i + 1);
    r := Some(code);
  }

  // ---------- decode ----------

  /** `x << shift` in a 32-bit word. */
  function Shl32(x: nat, shift: nat): nat { (x * Pow2(shift)) % U32 }

  lemma {:induction false} TopBit(b: Byte)
    ensures And(b, MSB) == 0 <==> b < 128
  {
    Pow2Seven();
    AndTop(b, 7);
  }

  lemma {:induction false} ShiftedDigit(d: nat, k: nat) returns (h: nat)
    requires d < 128 && k <= 4
    ensures Shl32(d, 7 * k) == h * Pow2(7 * k)
    ensures h * Pow2(7 * k) + LIMIT <= U32 || k == 4
    ensures k == 4 ==> h == d % 16
    ensures k < 4 ==> h == d
  {
    Sevens();
    if k == 4 {
      h := d % 16;
      ModScale(d, 16, LIMIT);
    } else {
      h := d;
      var p := Pow2(7 * k);
      assert p <= 2097152 by { assert k == 0 || k == 1 || k == 2 || k == 3; }
      MulMonotone(d, 127, p);
      ModSmall(d * p, U32);
    }
  }

  lemma {:induction false} MulMonotone(a: nat, b: nat, p: nat)
    requires a <= b
    ensures a * p <= b * p
  {
    assert b * p == a * p + (b - a) * p;
  }

  lemma {:induction false} SmallShift(k: nat)
    requires k <= 4
    ensures Pow2(7 * k) <= LIMIT
  {
    Sevens();
    assert k == 0 || k == 1 || k == 2 || k == 3 || k == 4;
  }

  /** Or-ing in one more digit adds it. */
  lemma {:induction false} DigitAdds(bs: Bytes, b: Byte)
    requires |bs| <= 4
    ensures Or(Value(bs) % U32, Shl32(And(b, LOW7), 7 * |bs|)) == Value(bs + [b]) % U32
  {
    LowSeven(b);
    ValueAppend(bs, b);
    ValueBound(bs);
    var k := |bs|;
    var p, d, low := Pow2(7 * k), b % 128, Value(bs);
    SmallShift(k);
    ModSmall(low, U32);
    OrDigit(low, d, k);
  }

  lemma {:induction false} OrDigit(low: nat, d: nat, k: nat)
    requires k <= 4 && low < Pow2(7 * k) && d < 128
    ensures Or(low, Shl32(d, 7 * k)) == (low + d * Pow2(7 * k)) % U32
  {
    var h := ShiftedDigit(d, k);
    OrCommutes(low, h * Pow2(7 * k));
    OrShifted(h, low, 7 * k);
    SumMod(low, d, h, k);
  }

  /** The fifth digit loses its upper bits. */
  lemma {:induction false} TopDigit(low: nat, d: nat)
    requires low < LIMIT
    ensures (low + d * LIMIT) % U32 == (d % 16) * LIMIT + low
  {
    var q, h := d / 16, d % 16;
    assert d == 16 * q + h;
    DivModUnique(low + d * LIMIT, U32, q, h * LIMIT + low);
  }

  /** The first four digits lose nothing. */
  lemma {:induction false} LowDigit(low: nat, d: nat, p: nat)
    requires low < p <= 2097152 && d < 128
    ensures (low + d * p) % U32 == d * p + low
  {
    MulMonotone(d, 127, p);
    ModSmall(low + d * p, U32);
  }

  lemma {:induction false} SumMod(low: nat, d: nat, h: nat, k: nat)
    requires k <= 4 && low < Pow2(7 * k) && d < 128
    requires if k == 4 then h == d % 16 else h == d
    ensures (low + d * Pow2(7 * k)) % U32 == h * Pow2(7 * k) + low
  {
    Sevens();
    var p := Pow2(7 * k);
    if k == 4 {
      TopDigit(low, d);
    } else {
      LowDigit(low, d, p);
    }
  }

  lemma {:induction false} ExtentAt(bs: Bytes, k: nat)
    requires k <= |bs| && forall i | 0 <= i < k :: bs[i] >= 128
    ensures Extent(bs) == k + Extent(bs[k..])
  {
    if k > 0 {
      ExtentAt(bs[1..], k - 1);
      assert bs[1..][k - 1..] == bs[k..];
    } else {
      assert bs[0..] == bs;
    }
  }

  /** `VarInt::decode`; `None` where the source shifts by more than 31 bits. */
  method Decode(buf: Bytes) returns (r: Option<(nat, nat)>)
    ensures r == Decoded(buf)
  {
    var result, shift, bytesRead := 0, 0, 0;
    while bytesRead < |buf|
      invariant bytesRead <= |buf| && bytesRead <= 5 && shift == 7 * bytesRead
      invariant forall i | 0 <= i < bytesRead :: buf[i] >= 128
      invariant result == Value(buf[..bytesRead]) % U32
    {
      var b := buf[bytesRead];
      ExtentAt(buf, bytesRead);
      if shift >= 32 {
        assert Extent(buf[bytesRead..]) >= 1;
        return None;
      }
      DigitAdds(buf[..bytesRead], b);
      assert buf[..bytesRead] + [b] == buf[..bytesRead + 1];
      bytesRead := bytesRead + 1;
      result := Or(result, Shl32(And(b, LOW7), shift));
      TopBit(b);
      if And(b, MSB) == 0 {
        return Some((result, bytesRead));
      }
      shift := shift + 7;
    }
    ExtentAt(buf, bytesRead);
    r := Some((result, bytesRead));
  }
}
