/** Unsigned machine words as naturals: bitwise operators by their bits, and the arithmetic they
    amount to in the places where the store uses them. */
module Bits {

  function Pow2(k: nat): (r: nat)
    ensures r >= 1
  {
    if k == 0 then 1 else 2 * Pow2(k - 1)
  }

  function And(x: nat, y: nat): nat {
    if x == 0 || y == 0 then 0 else 2 * And(x / 2, y / 2) + (if x % 2 == 1 && y % 2 == 1 then 1 else 0)
  }

  function Or(x: nat, y: nat): nat
    decreases x + y
  {
    if x == 0 then y else if y == 0 then x
    else 2 * Or(x / 2, y / 2) + (if x % 2 == 1 || y % 2 == 1 then 1 else 0)
  }

  /** `!x` in a word of `width` bits. */
  function Not(x: nat, width: nat): nat
    requires x < Pow2(width)
  {
    Pow2(width) - 1 - x
  }

  lemma {:induction false} Pow2Add(a: nat, b: nat)
    ensures Pow2(a + b) == Pow2(a) * Pow2(b)
  {
    if a > 0 {
      Pow2Add(a - 1, b);
      assert Pow2(a + b) == 2 * Pow2(a - 1 + b);
    }
  }

  /** Masking with an odd mask keeps the lowest bit. */
  lemma {:induction false} AndOdd(x: nat, q: nat)
    requires q >= 1
    ensures And(x, 2 * q - 1) == 2 * And(x / 2, q - 1) + x % 2
  {
    var m := 2 * q - 1;
    assert m > 0 && m / 2 == q - 1 && m % 2 == 1;
  }

  /** Masking with an even mask clears it. */
  lemma {:induction false} AndEven(x: nat, q: nat)
    ensures And(x, 2 * q) == 2 * And(x / 2, q)
  {
    var m := 2 * q;
    assert m / 2 == q && m % 2 == 0;
  }

  lemma {:induction false} OrEven(a: nat, y: nat)
    requires y > 0
    ensures Or(2 * a, y) == 2 * Or(a, y / 2) + y % 2
  {
    var x := 2 * a;
    assert x / 2 == a && x % 2 == 0;
  }

  /** The low `k` bits of `x`. */
  function Low(x: nat, k: nat): nat {
    if k == 0 then 0 else 2 * Low(x / 2, k - 1) + x % 2
  }

  lemma {:induction false} LowIsMod(x: nat, k: nat)
    ensures Low(x, k) == x % Pow2(k)
  {
    if k == 0 {
      ModOne(x);
    } else {
      LowIsMod(x / 2, k - 1);
      ModDouble(x, Pow2(k - 1));
    }
  }

  lemma {:induction false} AndMask(x: nat, k: nat)
    ensures And(x, Pow2(k) - 1) == Low(x, k)
  {
    if k > 0 {
      AndMask(x / 2, k - 1);
      AndOdd(x, Pow2(k - 1));
    }
  }

  /** Masking with the low `k` bits is the remainder by 2^k. */
  lemma {:induction false} AndLow(x: nat, k: nat)
    ensures And(x, Pow2(k) - 1) == x % Pow2(k)
  {
    AndMask(x, k);
    LowIsMod(x, k);
  }

  lemma {:induction false} ModOne(x: nat)
    ensures x % 1 == 0
  {
    DivModUnique(x, 1, x, 0);
  }

  lemma {:induction false} ModDouble(x: nat, q: nat)
    requires q >= 1
    ensures x % (2 * q) == 2 * ((x / 2) % q) + x % 2
  {
    var h := x / 2;
    var d := h / q;
    assert h == q * d + h % q;
    assert x == (2 * q) * d + (2 * (h % q) + x % 2) by {
      assert (2 * q) * d == 2 * (q * d);
    }
    DivModUnique(x, 2 * q, d, 2 * (h % q) + x % 2);
  }

  lemma {:induction false} DivModUnique(x: nat, m: nat, d: nat, r: nat)
    requires m >= 1 && x == m * d + r && r < m
    ensures x / m == d && x % m == r
  {
    var d', r' := x / m, x % m;
    assert x == m * d' + r';
    if d' < d {
      MulGap(m, d', d);
    } else if d < d' {
      MulGap(m, d, d');
    }
  }

  lemma {:induction false} MulGap(m: nat, a: nat, b: nat)
    requires a < b
    ensures m * a + m <= m * b
  {
    var gap := b - a - 1;
    assert m * b == m * (a + 1 + gap) == m * a + m + m * gap;
  }

  /** Scaling numerator and modulus scales the remainder. */
  lemma {:induction false} ModScale(x: nat, m: nat, b: nat)
    requires m >= 1 && b >= 1
    ensures m * b >= 1 && (x * b) % (m * b) == (x % m) * b
  {
    var d, r := x / m, x % m;
    Regroup(m, d, r, b);
    MulGap(b, r, m);
    DivModUnique(x * b, m * b, d, r * b);
  }

  lemma {:induction false} Regroup(m: nat, d: nat, r: nat, b: nat)
    ensures (m * d + r) * b == (m * b) * d + r * b
  {
    assert (m * d) * b == (m * b) * d;
  }

  lemma {:induction false} TwiceProduct(a: nat, q: nat)
    ensures a * (2 * q) == 2 * (a * q)
  {
  }

  /** Or-ing in a value below the shift only adds it. */
  lemma {:induction false} OrShifted(hi: nat, lo: nat, k: nat)
    requires lo < Pow2(k)
    ensures Or(hi * Pow2(k), lo) == hi * Pow2(k) + lo
  {
    if k > 0 && lo > 0 {
      var q := Pow2(k - 1);
      OrShifted(hi, lo / 2, k - 1);
      TwiceProduct(hi, q);
      OrEven(hi * q, lo);
    }
  }

  lemma {:induction false} OrCommutes(x: nat, y: nat)
    ensures Or(x, y) == Or(y, x)
    decreases x + y
  {
    if x > 0 && y > 0 {
      OrCommutes(x / 2, y / 2);
    }
  }

  /** Testing the top bit of a word of `k + 1` bits compares it with 2^k. */
  lemma {:induction false} AndTop(x: nat, k: nat)
    requires x < 2 * Pow2(k)
    ensures And(x, Pow2(k)) == if x >= Pow2(k) then Pow2(k) else 0
  {
    if x == 0 {
    } else if k == 0 {
      assert And(0, 0) == 0;
    } else {
      AndTop(x / 2, k - 1);
      assert Pow2(k) / 2 == Pow2(k - 1) && Pow2(k) % 2 == 0;
    }
  }

  lemma {:induction false} AndAll(x: nat, width: nat)
    requires x < Pow2(width)
    ensures And(x, Pow2(width) - 1) == x
  {
    AndLow(x, width);
    ModSmall(x, Pow2(width));
  }

  lemma {:induction false} AndNotStep(x: nat, q: nat, w: nat, low: nat)
    requires q <= w && And(x / 2, w - q) == x / 2 - low
    ensures And(x, 2 * w - 2 * q) == x - (2 * low + x % 2)
  {
    AndEven(x, w - q);
  }

  lemma {:induction false} AndNotMask(x: nat, k: nat, width: nat)
    requires k <= width && x < Pow2(width) && Pow2(k) <= Pow2(width)
    ensures And(x, Pow2(width) - Pow2(k)) == x - Low(x, k)
  {
    if k == 0 {
      AndAll(x, width);
    } else {
      AndNotMask(x / 2, k - 1, width - 1);
      AndNotStep(x, Pow2(k - 1), Pow2(width - 1), Low(x / 2, k - 1));
    }
  }

  /** Clearing the low `k` bits of a word rounds it down to a multiple of 2^k. */
  lemma {:induction false} AndNotLow(x: nat, k: nat, width: nat)
    requires k <= width && x < Pow2(width) && Pow2(k) - 1 < Pow2(width)
    ensures And(x, Not(Pow2(k) - 1, width)) == x - x % Pow2(k)
  {
    AndNotMask(x, k, width);
    LowIsMod(x, k);
  }

  lemma {:induction false} ModSmall(x: nat, m: nat)
    requires x < m
    ensures x % m == x && x / m == 0
  {
    DivModUnique(x, m, 0, x);
  }

  // ---------- 64-bit words ----------

  /** 2^64. */
  const WORD: nat := 0x1_0000_0000_0000_0000

  lemma {:induction false} Pow2Eight()
    ensures Pow2(8) == 256
  {
    assert Pow2(4) == 16;
    Pow2Add(4, 4);
  }

  lemma {:induction false} HalfWords()
    ensures Pow2(16) == 0x1_0000 && Pow2(32) == 0x1_0000_0000
  {
    Pow2Eight();
    Pow2Add(8, 8);
    Pow2Add(16, 16);
  }

  lemma {:induction false} WordIsPow2()
    ensures WORD == Pow2(64)
  {
    HalfWords();
    Pow2Add(32, 32);
  }

  /** `!x` for a 64-bit word. */
  function Not64(x: nat): nat
    requires x < WORD
  {
    WORD - 1 - x
  }

  lemma {:induction false} AndNotLow64(x: nat, k: nat)
    requires k <= 64 && x < WORD && Pow2(k) - 1 < WORD
    ensures And(x, Not64(Pow2(k) - 1)) == x - x % Pow2(k)
  {
    WordIsPow2();
    AndNotLow(x, k, 64);
  }
}
