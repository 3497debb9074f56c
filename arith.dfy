/** Integer and real helpers shared by the models: absolute value, powers of
    two, C's truncating division and two's-complement narrowing. */
module CArith {

  /** fabs on the model's real samples. */
  function Abs(r: real): (a: real)
    ensures a >= 0.0 && (a == r || a == -r)
  {
    if r < 0.0 then -r else r
  }

  function Max(a: int, b: int): int
  {
    if a < b then b else a
  }

  function Min(a: int, b: int): int
  {
    if a < b then a else b
  }

  function Pow2(k: nat): (p: nat)
    ensures p >= 1
  {
    if k == 0 then 1 else 2 * Pow2(k - 1)
  }

  /** n is 1, 2, 4, 8, ... */
  predicate IsPow2(n: int)
    decreases if n < 0 then 0 else n
  {
    n == 1 || (n >= 2 && n % 2 == 0 && IsPow2(n / 2))
  }

  lemma IsPow2Double(n: int)
    requires IsPow2(n)
    ensures IsPow2(2 * n)
  {
    assert (2 * n) / 2 == n && (2 * n) % 2 == 0;
  }

  function Log2(n: int): (k: nat)
    requires IsPow2(n)
    ensures Pow2(k) == n
    decreases if n < 0 then 0 else n
  {
    if n == 1 then 0 else 1 + Log2(n / 2)
  }

  lemma {:induction false} Pow2IsPow2(k: nat)
    ensures IsPow2(Pow2(k))
  {
    if k > 0 {
      Pow2IsPow2(k - 1);
      assert Pow2(k) / 2 == Pow2(k - 1);
    }
  }

  lemma {:induction false} Pow2Add(a: nat, b: nat)
    ensures Pow2(a + b) == Pow2(a) * Pow2(b)
  {
    if a > 0 {
      Pow2Add(a - 1, b);
      assert Pow2(a + b) == 2 * Pow2(a - 1 + b);
    }
  }

  lemma Pow2AtLeastTwo(k: nat)
    ensures k >= 1 ==> Pow2(k) >= 2
  {
  }

  lemma Pow2Monotone(a: nat, b: nat)
    requires a < b
    ensures 2 * Pow2(a) <= Pow2(b)
  {
    Pow2Add(a + 1, b - a - 1);
  }

  /** A smaller power of two divides a larger one. */
  lemma Pow2Divides(a: nat, b: nat)
    requires a <= b
    ensures Pow2(b) % Pow2(a) == 0 && Pow2(b) / Pow2(a) == Pow2(b - a)
  {
    Pow2Add(a, b - a);
    DivModUnique(Pow2(b), Pow2(a), Pow2(b - a), 0);
  }

  /** Two distinct powers of two are at least a factor of two apart. */
  lemma {:induction false} Pow2Gap(q: int, f: int)
    requires IsPow2(q) && IsPow2(f) && q > f
    ensures q >= 2 * f
    decreases f
  {
    if f != 1 {
      Pow2Gap(q / 2, f / 2);
    }
  }

  lemma {:induction false} MulAtLeast(d: int, k: int)
    requires d > 0 && k >= 1
    ensures d * k >= d
    decreases k
  {
    if k > 1 {
      MulAtLeast(d, k - 1);
      assert d * k == d * (k - 1) + d;
    }
  }

  /** Euclidean quotient and remainder are determined by their defining equation. */
  lemma DivModUnique(a: int, d: int, q: int, r: int)
    requires d > 0 && 0 <= r < d && a == d * q + r
    ensures a / d == q && a % d == r
  {
    var q', r' := a / d, a % d;
    assert a == d * q' + r';
    assert d * (q - q') == r' - r;
    if q > q' {
      MulAtLeast(d, q - q');
    } else if q < q' {
      MulAtLeast(d, q' - q);
    }
  }

  /** An exact quotient multiplies back. */
  lemma DivExact(a: int, d: int)
    requires d > 0 && a % d == 0
    ensures (a / d) * d == a
  {
    assert a == d * (a / d) + a % d;
  }

  lemma {:induction false} MulMonotone(d: int, x: int, y: int)
    requires d >= 0 && x <= y
    ensures d * x <= d * y
    decreases y - x
  {
    if x < y {
      MulMonotone(d, x, y - 1);
      assert d * y == d * (y - 1) + d;
    }
  }

  /** Block i of size d, i < count, ends within count blocks. */
  lemma NextBlockFits(i: nat, count: nat, d: nat)
    requires i < count
    ensures i * d + d <= count * d
  {
    MulMonotone(d, i + 1, count);
    assert (i + 1) * d == i * d + d;
  }

  lemma ModLe(x: int, d: int)
    requires x >= 0 && d > 0
    ensures x % d <= x && x / d >= 0
  {
    var q := x / d;
    assert x == d * q + x % d;
    if q >= 1 {
      MulAtLeast(d, q);
    } else if q < 0 {
      MulAtLeast(d, -q);
    }
  }

  /** Two numbers less than d apart with the same remainder are equal. */
  lemma SameResidue(x: int, y: int, d: int)
    requires d > 0 && x <= y < x + d && x % d == y % d
    ensures x == y
  {
    var qx, qy := x / d, y / d;
    assert x == d * qx + x % d && y == d * qy + y % d;
    assert y - x == d * (qy - qx);
    if qy > qx {
      MulAtLeast(d, qy - qx);
    } else if qy < qx {
      MulAtLeast(d, qx - qy);
    }
  }

  /** Adding k < d - x % d moves x within its block of d. */
  lemma ModShift(x: int, k: int, d: int)
    requires d > 0 && 0 <= k && x % d + k < d
    ensures (x + k) % d == x % d + k && (x + k) / d == x / d
  {
    DivModUnique(x + k, d, x / d, x % d + k);
  }

  /** Adding d keeps the remainder and adds one to the quotient. */
  lemma ModStep(x: int, d: int)
    requires d > 0
    ensures (x + d) % d == x % d && (x + d) / d == x / d + 1
  {
    DivModUnique(x + d, d, x / d + 1, x % d);
  }

  /** Dividing by 2h is halving and then dividing by h. */
  lemma HalvingDivMod(a: nat, h: nat)
    requires h >= 1
    ensures (a / 2) / h == a / (2 * h)
    ensures (a / 2) % h == (a % (2 * h)) / 2
    ensures (a % (2 * h)) % 2 == a % 2
  {
    var q, r := a / (2 * h), a % (2 * h);
    assert a == (2 * h) * q + r;
    DivModUnique(a, 2, h * q + r / 2, r % 2);
    DivModUnique(a / 2, h, q, r / 2);
  }

  /** C99 integer division: the quotient truncated toward zero. */
  function CDiv(a: int, b: int): (q: int)
    requires b != 0
    ensures a >= 0 && b > 0 ==> q == a / b
  {
    if a >= 0 && b > 0 then a / b
    else
      var aq := (if a < 0 then -a else a) / (if b < 0 then -b else b);
      if (a < 0) == (b < 0) then aq else -aq
  }

  const TWO_32: int := 0x1_0000_0000
  const TWO_31: int := 0x8000_0000
  const TWO_16: int := 0x1_0000
  const TWO_15: int := 0x8000

  predicate InInt32(v: int) { -TWO_31 <= v < TWO_31 }
  predicate InInt16(v: int) { -TWO_15 <= v < TWO_15 }

  /** Conversion of an integer to a 32-bit two's-complement int (wrap-around). */
  function Wrap32(v: int): (r: int)
    ensures InInt32(r) && (r - v) % TWO_32 == 0
    ensures InInt32(v) ==> r == v
  {
    var u := v % TWO_32;
    if u >= TWO_31 then u - TWO_32 else u
  }

  /** Conversion of an integer to a 16-bit two's-complement short (wrap-around). */
  function Wrap16(v: int): (r: int)
    ensures InInt16(r) && (r - v) % TWO_16 == 0
    ensures InInt16(v) ==> r == v
  {
    var u := v % TWO_16;
    if u >= TWO_15 then u - TWO_16 else u
  }

  /** The powers of two that byte and word widths use. */
  lemma Pow2Bytes()
    ensures Pow2(7) == 128 && Pow2(8) == 256 && Pow2(15) == TWO_15 && Pow2(16) == TWO_16
    ensures Pow2(24) == 16777216 && Pow2(31) == TWO_31 && Pow2(32) == TWO_32
  {
  }

  /** Bitwise or of two naturals, bit by bit from the least significant. */
  function BitOr(a: nat, b: nat): nat
    decreases a + b
  {
    if a == 0 then b
    else if b == 0 then a
    else 2 * BitOr(a / 2, b / 2) + (if a % 2 == 1 || b % 2 == 1 then 1 else 0)
  }

  /** Bitwise and of two naturals. */
  function BitAnd(a: nat, b: nat): nat
    decreases a + b
  {
    if a == 0 || b == 0 then 0
    else 2 * BitAnd(a / 2, b / 2) + (if a % 2 == 1 && b % 2 == 1 then 1 else 0)
  }

  /** Or-ing a number below 2^k with a multiple of 2^k adds them: the bits do not overlap. */
  lemma {:induction false} BitOrDisjoint(a: nat, c: nat, k: nat)
    requires a < Pow2(k)
    ensures BitOr(a, c * Pow2(k)) == a + c * Pow2(k)
    decreases k
  {
    if a != 0 && c != 0 {
      var h := Pow2(k - 1);
      assert c * Pow2(k) == 2 * (c * h);
      BitOrDisjoint(a / 2, c, k - 1);
    }
  }

  /** And-ing with the mask 2^k - 1 keeps the k low bits. */
  lemma {:induction false} BitAndLowMask(a: nat, k: nat)
    ensures BitAnd(a, Pow2(k) - 1) == a % Pow2(k)
    decreases k
  {
    if k > 0 && a != 0 {
      var h := Pow2(k - 1);
      BitAndLowMask(a / 2, k - 1);
      HalvingDivMod(a, h);
      assert a % (2 * h) == 2 * ((a % (2 * h)) / 2) + (a % (2 * h)) % 2;
    }
  }

  /** The 32-bit two's-complement bit pattern of a C int. */
  function Bits32(x: int): (u: nat)
    ensures u < TWO_32
  {
    x % TWO_32
  }

  /** C's `|` on two ints. */
  function COr(x: int, y: int): int
  {
    Wrap32(BitOr(Bits32(x), Bits32(y)))
  }

  /** C's `&` on two ints. */
  function CAnd(x: int, y: int): int
  {
    Wrap32(BitAnd(Bits32(x), Bits32(y)))
  }

  /** C's `<<` on an int, with the two's-complement wrap-around of the usual compilers. */
  function CShl(x: int, k: nat): int
  {
    Wrap32(x * Pow2(k))
  }

  lemma Wrap32Bits(v: int)
    ensures Bits32(Wrap32(v)) == Bits32(v)
  {
  }

  /** Or of two ints whose bit patterns do not overlap is their sum, wrapped. */
  lemma COrDisjoint(x: int, y: int, c: nat, k: nat)
    requires Bits32(x) < Pow2(k) && Bits32(y) == c * Pow2(k)
    ensures COr(x, y) == Wrap32(Bits32(x) + c * Pow2(k))
  {
    BitOrDisjoint(Bits32(x), c, k);
  }

  /** The same for a small non-negative x whose sum stays below 2^31: no wrap-around. */
  lemma COrSmall(x: int, y: int, c: nat, k: nat)
    requires 0 <= x < Pow2(k) && Bits32(y) == c * Pow2(k) && x + c * Pow2(k) < TWO_31
    ensures COr(x, y) == x + c * Pow2(k)
  {
    var m := c * Pow2(k);
    assert Bits32(x) == x;
    BitOrDisjoint(x, c, k);
    assert BitOr(Bits32(x), Bits32(y)) == x + m;
  }

  /** Adding 2^32 does not change the int a pattern stands for. */
  lemma Wrap32Shift(w: int)
    requires InInt32(w)
    ensures Wrap32(w + TWO_32) == w
  {
    if w < 0 {
      assert (w + TWO_32) % TWO_32 == w + TWO_32;
    } else {
      assert (w + TWO_32) % TWO_32 == w;
    }
  }

  lemma Wrap16Shift(w: int)
    requires InInt16(w)
    ensures Wrap16(w + TWO_16) == w
  {
    if w < 0 {
      assert (w + TWO_16) % TWO_16 == w + TWO_16;
    } else {
      assert (w + TWO_16) % TWO_16 == w;
    }
  }

  /** A byte or-ed below a multiple of 256. */
  lemma COrLowByte(b: int, y: int, c: nat)
    requires 0 <= b < 256 && Bits32(y) == c * 256
    ensures COr(b, y) == Wrap32(b + c * 256)
  {
    assert Pow2(8) == 256;
    assert Bits32(b) == b;
    BitOrDisjoint(b, c, 8);
    assert BitOr(Bits32(b), Bits32(y)) == b + c * 256;
  }

  /** Three low bytes or-ed with a pattern that holds c in its top byte:
      the int is negative exactly when c has its top bit set. */
  lemma COrTopByte(x: int, y: int, c: nat)
    requires 0 <= x < 16777216 && c < 256 && Bits32(y) == c * 16777216
    ensures COr(x, y) == x + c * 16777216 - (if c >= 128 then TWO_32 else 0)
  {
    Pow2Bytes();
    assert Bits32(x) == x;
    BitOrDisjoint(x, c, 24);
    var v := x + c * 16777216;
    assert BitOr(Bits32(x), Bits32(y)) == v;
    Wrap32Unsigned(v);
  }

  /** A 32-bit pattern read as an int. */
  lemma Wrap32Unsigned(v: int)
    requires 0 <= v < TWO_32
    ensures Wrap32(v) == if v < TWO_31 then v else v - TWO_32
  {
    assert v % TWO_32 == v;
  }

  /** Or-ing zero leaves an int unchanged. */
  lemma COrZero(x: int)
    requires InInt32(x)
    ensures COr(x, 0) == x
  {
    assert Bits32(0) == 0;
    assert BitOr(Bits32(x), 0) == Bits32(x);
    Wrap32Bits(x);
  }

  /** x & 255 is the low byte of x's bit pattern. */
  lemma CAndLowByte(x: int)
    ensures CAnd(x, 255) == Bits32(x) % 256
  {
    assert Pow2(8) == 256;
    BitAndLowMask(Bits32(x), 8);
  }

  /** Digits of a base d*h number: v mod dh is v mod d plus d times the next digit. */
  lemma DivModNest(v: int, d: int, h: int)
    requires d > 0 && h > 0
    ensures v % (d * h) == v % d + d * ((v / d) % h)
    ensures v / (d * h) == (v / d) / h
  {
    var q, r := v / d, v % d;
    var q1, r1 := q / h, q % h;
    var low := d * r1 + r;
    assert 0 <= low < d * h by {
      MulMonotone(d, r1, h - 1);
      assert d * (h - 1) == d * h - d;
    }
    assert v == (d * h) * q1 + low by {
      assert v == d * q + r;
      assert q == h * q1 + r1;
      assert d * q == d * (h * q1) + d * r1;
      assert d * (h * q1) == (d * h) * q1;
    }
    DivModUnique(v, d * h, q1, low);
  }

  /** Narrowing an int already reduced modulo 2^32 (2^16) is narrowing the int. */
  lemma WrapOfMod(v: int)
    ensures Wrap32(v % TWO_32) == Wrap32(v)
    ensures Wrap16(v % TWO_16) == Wrap16(v)
  {
    DivModUnique(v % TWO_32, TWO_32, 0, v % TWO_32);
    DivModUnique(v % TWO_16, TWO_16, 0, v % TWO_16);
  }
}
