/** Slice comparison, and big-endian words: comparing the bytes compares the numbers. */
module ByteOrder {
  import opened Basics
  import opened Bits

  datatype Ord = Less | Equal | Greater

  /** `[u8]::cmp`: lexicographic, a proper prefix first. */
  function Cmp(a: Bytes, b: Bytes): Ord {
    if a == [] then (if b == [] then Equal else Less)
    else if b == [] then Greater
    else if a[0] < b[0] then Less
    else if a[0] > b[0] then Greater
    else Cmp(a[1..], b[1..])
  }

  /** `a` and `b` agree before position `k`, where `a` ends or has the smaller byte. */
  predicate DiffersAt(a: Bytes, b: Bytes, k: nat) {
    && k <= |a| && k <= |b| && a[..k] == b[..k]
    && (k == |a| < |b| || (k < |a| && k < |b| && a[k] < b[k]))
  }

  /** The order of the dictionary. */
  ghost predicate LexLess(a: Bytes, b: Bytes) {
    exists k: nat :: DiffersAt(a, b, k)
  }

  lemma {:induction false} DiffersLater(a: Bytes, b: Bytes, k: nat)
    requires a != [] && b != [] && a[0] == b[0]
    ensures DiffersAt(a[1..], b[1..], k) ==> DiffersAt(a, b, k + 1)
    ensures k >= 1 && DiffersAt(a, b, k) ==> DiffersAt(a[1..], b[1..], k - 1)
  {
    if DiffersAt(a[1..], b[1..], k) {
      assert a[..k + 1] == [a[0]] + a[1..][..k] && b[..k + 1] == [b[0]] + b[1..][..k];
    }
    if k >= 1 && DiffersAt(a, b, k) {
      assert a[1..][..k - 1] == a[..k][1..] && b[1..][..k - 1] == b[..k][1..];
    }
  }

  lemma {:induction false} SameStart(a: Bytes, b: Bytes, k: nat)
    requires k <= |a| && k <= |b| && a[..k] == b[..k]
    ensures k == 0 || (a != [] && b != [] && a[0] == b[0])
  {
    if k > 0 {
      assert a[0] == a[..k][0] && b[0] == b[..k][0];
    }
  }

  /** Slice comparison is the order of the dictionary. */
  lemma {:induction false} CmpIsLexicographic(a: Bytes, b: Bytes)
    ensures Cmp(a, b) == Less <==> LexLess(a, b)
  {
    if a != [] && b != [] && a[0] == b[0] {
      CmpIsLexicographic(a[1..], b[1..]);
      if LexLess(a[1..], b[1..]) {
        var k: nat :| DiffersAt(a[1..], b[1..], k);
        DiffersLater(a, b, k);
        assert DiffersAt(a, b, k + 1);
      }
      if LexLess(a, b) {
        var k: nat :| DiffersAt(a, b, k);
        DiffersLater(a, b, k);
        assert DiffersAt(a[1..], b[1..], k - 1);
      }
    } else {
      assert Cmp(a, b) == Less ==> DiffersAt(a, b, 0);
      forall k: nat | DiffersAt(a, b, k)
        ensures k == 0
      {
        SameStart(a, b, k);
      }
    }
  }

  function NumCmp(x: int, y: int): Ord {
    if x < y then Less else if x > y then Greater else Equal
  }

  function Flip(o: Ord): Ord {
    match o
    case Less => Greater
    case Equal => Equal
    case Greater => Less
  }

  lemma {:induction false} CmpEqual(a: Bytes, b: Bytes)
    ensures Cmp(a, b) == Equal <==> a == b
  {
    if a != [] && b != [] && a[0] == b[0] {
      CmpEqual(a[1..], b[1..]);
      assert a == [a[0]] + a[1..] && b == [b[0]] + b[1..];
    }
  }

  lemma {:induction false} CmpFlips(a: Bytes, b: Bytes)
    ensures Cmp(b, a) == Flip(Cmp(a, b))
  {
    if a != [] && b != [] && a[0] == b[0] {
      CmpFlips(a[1..], b[1..]);
    }
  }

  lemma {:induction false} CmpTransitive(a: Bytes, b: Bytes, c: Bytes)
    requires Cmp(a, b) != Greater && Cmp(b, c) != Greater
    ensures Cmp(a, c) != Greater
    ensures Cmp(a, b) == Less || Cmp(b, c) == Less ==> Cmp(a, c) == Less
  {
    if a != [] && b != [] && c != [] && a[0] == b[0] == c[0] {
      CmpTransitive(a[1..], b[1..], c[1..]);
    }
  }

  /** Appending one byte to strings of equal length decides only between equal strings. */
  lemma {:induction false} CmpAppend(a: Bytes, x: Byte, b: Bytes, y: Byte)
    requires |a| == |b|
    ensures Cmp(a + [x], b + [y]) == if Cmp(a, b) == Equal then NumCmp(x, y) else Cmp(a, b)
  {
    if a != [] {
      assert (a + [x])[1..] == a[1..] + [x] && (b + [y])[1..] == b[1..] + [y];
      CmpAppend(a[1..], x, b[1..], y);
    } else {
      assert a + [x] == [x] && b + [y] == [y];
      assert Cmp([x][1..], [y][1..]) == Equal;
    }
  }

  /** The low `n` bytes of `x`, most significant first. */
  function ToBe(x: nat, n: nat): (r: Bytes)
    ensures |r| == n
  {
    if n == 0 then [] else ToBe(x / 256, n - 1) + [x % 256]
  }

  function FromBe(bs: Bytes): nat {
    if bs == [] then 0 else FromBe(bs[..|bs| - 1]) * 256 + bs[|bs| - 1]
  }

  function Power(k: nat): (p: nat)
    ensures p >= 1
  {
    if k == 0 then 1 else 256 * Power(k - 1)
  }

  lemma {:induction false} DivTwice(x: nat, p: nat)
    requires p >= 1
    ensures x / 256 / p == x / (256 * p)
  {
    var q, r := x / 256 / p, x / 256 % p;
    assert x == 256 * (x / 256) + x % 256 && x / 256 == p * q + r;
    assert x == (256 * p) * q + (256 * r + x % 256) by {
      assert 256 * (p * q) == (256 * p) * q;
    }
    DivModUnique(x, 256 * p, q, 256 * r + x % 256);
  }

  /** Byte `k` of the big-endian form is the digit of 256^(n - 1 - k). */
  lemma {:induction false} BeDigit(x: nat, n: nat, k: nat)
    requires k < n
    ensures ToBe(x, n)[k] == x / Power(n - 1 - k) % 256
  {
    if k < n - 1 {
      BeDigit(x / 256, n - 1, k);
      DivTwice(x, Power(n - 2 - k));
    }
  }

  lemma {:induction false} BytesOfWord(x: nat, n: nat)
    requires n >= 1 && x < Pow2(8 * n)
    ensures x / 256 < Pow2(8 * (n - 1))
  {
    Pow2Add(8, 8 * (n - 1));
    Pow2Eight();
  }

  lemma {:induction false} FromToBe(x: nat, n: nat)
    requires x < Pow2(8 * n)
    ensures FromBe(ToBe(x, n)) == x
  {
    if n > 0 {
      BytesOfWord(x, n);
      FromToBe(x / 256, n - 1);
      assert ToBe(x, n)[..n - 1] == ToBe(x / 256, n - 1);
    }
  }

  /** Big-endian byte order agrees with numeric order. */
  lemma {:induction false} BeOrder(x: nat, y: nat, n: nat)
    requires x < Pow2(8 * n) && y < Pow2(8 * n)
    ensures Cmp(ToBe(x, n), ToBe(y, n)) == NumCmp(x, y)
  {
    if n > 0 {
      BytesOfWord(x, n);
      BytesOfWord(y, n);
      BeOrder(x / 256, y / 256, n - 1);
      CmpAppend(ToBe(x / 256, n - 1), x % 256, ToBe(y / 256, n - 1), y % 256);
    }
  }

  // ---------- Little-endian words ----------

  /** The low `n` bytes of `x`, least significant first. */
  function ToLe(x: nat, n: nat): (r: Bytes)
    ensures |r| == n
  {
    if n == 0 then [] else [x % 256] + ToLe(x / 256, n - 1)
  }

  function FromLe(bs: Bytes): nat {
    if bs == [] then 0 else bs[0] + 256 * FromLe(bs[1..])
  }

  lemma {:induction false} FromToLe(x: nat, n: nat)
    requires x < Pow2(8 * n)
    ensures FromLe(ToLe(x, n)) == x
  {
    if n > 0 {
      Pow2Eight();
      Pow2Add(8, 8 * (n - 1));
      FromToLe(x / 256, n - 1);
      assert ToLe(x, n)[1..] == ToLe(x / 256, n - 1);
    }
  }

  /** Byte `k` of the little-endian form is the digit of 256^k. */
  lemma {:induction false} LeDigit(x: nat, n: nat, k: nat)
    requires k < n
    ensures ToLe(x, n)[k] == x / Power(k) % 256
  {
    if k > 0 {
      LeDigit(x / 256, n - 1, k - 1);
      DivTwice(x, Power(k - 1));
    }
  }
}
