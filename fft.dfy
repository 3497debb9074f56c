/** The radix-2 FFT `four1` (Numerical Recipes) of src/DFT_FFT.c, on a buffer of
    2*nn reals holding nn interleaved (real, imaginary) pairs.  The C routine
    indexes data[1..2*nn]; here data is 0-based and the C indices i, j are kept
    as they are, each access data[k] of the C code becoming data[k-1].  The
    sine used for the twiddle recurrence is a parameter: its values are left
    uninterpreted. */
module Fft {
  import opened CArith

  // ---------------------------------------------------------------------------
  // Bit reversal
  // ---------------------------------------------------------------------------

  /** The low `bits` bits of a, reversed. */
  function RevBits(a: nat, bits: nat): (r: nat)
    ensures r < Pow2(bits)
  {
    if bits == 0 then 0
    else (if a % 2 == 1 then Pow2(bits - 1) else 0) + RevBits(a / 2, bits - 1)
  }

  lemma {:induction false} RevBitsZero(bits: nat)
    ensures RevBits(0, bits) == 0
  {
    if bits > 0 {
      RevBitsZero(bits - 1);
    }
  }

  /** One step of the definition, with the low bit of a split into its cases. */
  lemma RevBitsStep(a: nat, bits: nat)
    requires bits >= 1
    ensures Pow2(bits) == 2 * Pow2(bits - 1) && RevBits(a / 2, bits - 1) < Pow2(bits - 1)
    ensures a % 2 == 0 ==> RevBits(a, bits) == RevBits(a / 2, bits - 1)
    ensures a % 2 == 1 ==> RevBits(a, bits) == Pow2(bits - 1) + RevBits(a / 2, bits - 1)
  {
  }

  /** Reversing puts the top bit of a at the bottom. */
  lemma {:induction false} RevBitsTop(a: nat, bits: nat)
    requires bits >= 1 && a < Pow2(bits)
    ensures RevBits(a, bits) == 2 * RevBits(a % Pow2(bits - 1), bits - 1) + a / Pow2(bits - 1)
  {
    if bits > 1 {
      var h := Pow2(bits - 2);
      assert Pow2(bits - 1) == 2 * h;
      RevBitsTop(a / 2, bits - 1);
      HalvingDivMod(a, h);
    }
  }

  /** Bit reversal is an involution on [0, 2^bits). */
  lemma {:induction false} RevBitsInvolution(a: nat, bits: nat)
    requires a < Pow2(bits)
    ensures RevBits(RevBits(a, bits), bits) == a
  {
    if bits > 0 {
      var hi := Pow2(bits - 1);
      var rest := RevBits(a / 2, bits - 1);
      var r := RevBits(a, bits);
      RevBitsStep(a, bits);
      RevBitsTop(r, bits);
      if a % 2 == 0 {
        DivModUnique(r, hi, 0, rest);
      } else {
        DivModUnique(r, hi, 1, rest);
      }
      assert RevBits(r, bits) == 2 * RevBits(rest, bits - 1) + a % 2;
      RevBitsInvolution(a / 2, bits - 1);
      assert RevBits(rest, bits - 1) == a / 2;
    }
  }

  /** The buffer after the bit-reversal phase: the pair at pair-position q is
      the original pair at RevBits(q), real and imaginary parts together. */
  function BitReversed(s: seq<real>, bits: nat): (r: seq<real>)
    requires |s| == 2 * Pow2(bits)
    ensures |r| == |s|
  {
    seq(|s|, k requires 0 <= k < |s| => s[2 * RevBits(k / 2, bits) + k % 2])
  }

  lemma BitReversedAt(s: seq<real>, bits: nat, k: nat)
    requires |s| == 2 * Pow2(bits) && k < |s|
    ensures RevBits(k / 2, bits) < Pow2(bits)
    ensures BitReversed(s, bits)[k] == s[2 * RevBits(k / 2, bits) + k % 2]
  {
  }

  /** Applying the bit-reversal phase twice restores the input. */
  lemma BitReversedTwice(s: seq<real>, bits: nat)
    requires |s| == 2 * Pow2(bits)
    ensures BitReversed(BitReversed(s, bits), bits) == s
  {
    forall k | 0 <= k < |s|
      ensures BitReversed(BitReversed(s, bits), bits)[k] == s[k]
    {
      BitReversedTwiceAt(s, bits, k);
    }
  }

  lemma BitReversedTwiceAt(s: seq<real>, bits: nat, k: nat)
    requires |s| == 2 * Pow2(bits) && k < |s|
    ensures BitReversed(BitReversed(s, bits), bits)[k] == s[k]
  {
    var once := BitReversed(s, bits);
    var q := k / 2;
    var rq := RevBits(q, bits);
    var y := 2 * rq + k % 2;
    BitReversedAt(once, bits, k);
    assert y / 2 == rq && y % 2 == k % 2;
    BitReversedAt(s, bits, y);
    RevBitsInvolution(q, bits);
    assert k == 2 * q + k % 2;
  }

  /** Where the pair now at pair-position q came from, once the walk has
      handled the positions below a: each swap (q, RevBits(q)) is done when the
      smaller of the two is passed. */
  function SwapSource(q: nat, a: nat, bits: nat): nat
  {
    if q < a || RevBits(q, bits) < a then RevBits(q, bits) else q
  }

  /** The sequence d with the elements at x and y exchanged. */
  function Swapped(d: seq<real>, x: nat, y: nat): (e: seq<real>)
    requires x < |d| && y < |d|
    ensures |e| == |d|
  {
    d[x := d[y]][y := d[x]]
  }

  lemma SwappedPermutes(d: seq<real>, x: nat, y: nat)
    requires x < |d| && y < |d|
    ensures multiset(Swapped(d, x, y)) == multiset(d)
  {
  }

  /** The SWAP macro of the C source. */
  method Swap(data: array<real>, a: nat, b: nat)
    requires a < data.Length && b < data.Length
    modifies data
    ensures data[..] == Swapped(old(data[..]), a, b)
  {
    var tempr := data[a];
    data[a] := data[b];
    data[b] := tempr;
  }

  /** A step of the walk: when the reversed index has its top bit set, the
      walk clears it and moves on to the next bit (the carry of a + 1). */
  lemma WalkStep(w: nat, bits: nat)
    requires Pow2(bits) >= 2 && 2 * RevBits(w, bits) + 1 > Pow2(bits)
    ensures bits >= 1 && Pow2(bits) / 2 == Pow2(bits - 1)
    ensures 2 * RevBits(w, bits) + 1 - Pow2(bits) == 2 * RevBits(w / 2, bits - 1) + 1
    ensures RevBits(w + 1, bits) == RevBits(w / 2 + 1, bits - 1)
  {
    assert Pow2(0) == 1;
    RevBitsStep(w, bits);
    RevBitsStep(w + 1, bits);
    assert (w + 1) / 2 == w / 2 + 1;
  }

  /** The walk stops at the first clear bit, and setting it gives the reversal
      of a + 1. */
  lemma WalkExit(w: nat, bits: nat)
    requires Pow2(bits) >= 2 && 2 * RevBits(w, bits) + 1 <= Pow2(bits)
    ensures 2 * RevBits(w, bits) + 1 + Pow2(bits) == 2 * RevBits(w + 1, bits) + 1
  {
    assert Pow2(0) == 1;
    RevBitsStep(w, bits);
    RevBitsStep(w + 1, bits);
    assert (w + 1) / 2 == w / 2;
  }

  /** The walk runs off the end only when a + 1 has no bit set below 2^bits,
      that is, on the last pass. */
  lemma WalkOffEnd(a: nat, w: nat, bits: nat, k: nat)
    requires Pow2(k) < 2 && a < Pow2(bits)
    requires RevBits(a + 1, bits) == RevBits(w + 1, k)
    ensures k == 0 && a + 1 == Pow2(bits)
  {
    Pow2AtLeastTwo(k);
    if a + 1 < Pow2(bits) {
      RevBitsInvolution(a + 1, bits);
      RevBitsZero(bits);
    }
  }

  /** The step of the bit-reversal walk at src/DFT_FFT.c:36-41: with j the
      1-based real index of the pair RevBits(a), j comes out as the index of the
      pair RevBits(a + 1); when a + 1 == nn (the last pass) j is not used again. */
  method NextReversed(j: nat, nn: nat, ghost bits: nat, ghost a: nat) returns (j': nat)
    requires nn == Pow2(bits) && a < nn && j == 2 * RevBits(a, bits) + 1
    ensures a + 1 < nn ==> j' == 2 * RevBits(a + 1, bits) + 1
  {
    j' := j;
    var m := nn;
    ghost var k: nat := bits;
    ghost var w: nat := a;
    while m >= 2 && j' > m
      invariant k <= bits && m == Pow2(k)
      invariant j' == 2 * RevBits(w, k) + 1
      invariant RevBits(a + 1, bits) == RevBits(w + 1, k)
      decreases m
    {
      WalkStep(w, k);
      j' := j' - m;
      m := m / 2;
      k := k - 1;
      w := w / 2;
    }
    if m < 2 {
      WalkOffEnd(a, w, bits, k);
      j' := j' + m;
    } else {
      WalkExit(w, k);
      j' := j' + m;
    }
  }

  /** The pair-position whose contents land at q when pairs p and r are exchanged. */
  function Exchanged(q: nat, p: nat, r: nat): nat
  {
    if q == p then r else if q == r then p else q
  }

  /** The partner of pair-position a in the walk: RevBits(a) when that is
      larger (the pass at a swaps them), a itself otherwise (nothing moves). */
  function Partner(a: nat, bits: nat): (r: nat)
    ensures r < Pow2(bits) || r == a
  {
    var ra := RevBits(a, bits);
    if ra > a then ra else a
  }

  /** Passing a exchanges a with its partner, which is what SwapSource records. */
  lemma SwapSourceStep(q: nat, a: nat, bits: nat)
    requires a < Pow2(bits) && q < Pow2(bits)
    ensures SwapSource(Exchanged(q, a, Partner(a, bits)), a, bits) == SwapSource(q, a + 1, bits)
  {
    RevBitsInvolution(a, bits);
    if q != a && q != RevBits(a, bits) && RevBits(q, bits) == a {
      RevBitsInvolution(q, bits);
    }
  }

  lemma SwapSourceBound(q: nat, a: nat, bits: nat)
    requires q < Pow2(bits)
    ensures SwapSource(q, a, bits) < Pow2(bits)
  {
  }

  /** The buffer d with the pairs at pair-positions p and r exchanged: the
      two SWAPs of the C source, real parts then imaginary parts. */
  function ExchangePairs(d: seq<real>, p: nat, r: nat): (e: seq<real>)
    requires 2 * p + 1 < |d| && 2 * r + 1 < |d|
    ensures |e| == |d|
  {
    Swapped(Swapped(d, 2 * r, 2 * p), 2 * r + 1, 2 * p + 1)
  }

  /** Exchanging moves the pair at Exchanged(q, p, r) to q; b selects the
      real (0) or imaginary (1) part. */
  lemma ExchangedAt(d: seq<real>, p: nat, r: nat, q: nat, b: nat)
    requires 2 * p + 1 < |d| && 2 * r + 1 < |d| && 2 * q + 1 < |d| && b < 2
    ensures 2 * Exchanged(q, p, r) + 1 < |d|
    ensures ExchangePairs(d, p, r)[2 * q + b] == d[2 * Exchanged(q, p, r) + b]
  {
  }

  /** Exchanging a pair with itself changes nothing. */
  lemma ExchangeSelf(d: seq<real>, p: nat)
    requires 2 * p + 1 < |d|
    ensures ExchangePairs(d, p, p) == d
  {
  }

  /** Exchanging two pairs permutes the buffer. */
  lemma ExchangePermutes(d: seq<real>, p: nat, r: nat)
    requires 2 * p + 1 < |d| && 2 * r + 1 < |d|
    ensures multiset(ExchangePairs(d, p, r)) == multiset(d)
  {
    var d1 := Swapped(d, 2 * r, 2 * p);
    SwappedPermutes(d, 2 * r, 2 * p);
    SwappedPermutes(d1, 2 * r + 1, 2 * p + 1);
    assert ExchangePairs(d, p, r) == Swapped(d1, 2 * r + 1, 2 * p + 1);
  }

  /** Exchanges the pairs at pair-positions p and r (the two SWAPs at
      src/DFT_FFT.c:33-34, with C's 1-based indices i and j). */
  method SwapPairs(data: array<real>, i: nat, j: nat, ghost p: nat, ghost r: nat)
    requires i == 2 * p + 1 && j == 2 * r + 1 && p < r && j < data.Length
    modifies data
    ensures data[..] == ExchangePairs(old(data[..]), p, r)
  {
    Swap(data, j - 1, i - 1);
    Swap(data, j, i);
  }

  /** The buffer once the bit-reversal loop has passed the pair-positions
      below a. */
  function Walked(s: seq<real>, a: nat, bits: nat): (d: seq<real>)
    requires |s| == 2 * Pow2(bits)
    ensures |d| == |s|
  {
    seq(|s|, k requires 0 <= k < |s| =>
      SwapSourceBound(k / 2, a, bits);
      s[2 * SwapSource(k / 2, a, bits) + k % 2])
  }

  lemma WalkedAt(s: seq<real>, a: nat, bits: nat, k: nat)
    requires |s| == 2 * Pow2(bits) && k < |s|
    ensures SwapSource(k / 2, a, bits) < Pow2(bits)
    ensures Walked(s, a, bits)[k] == s[2 * SwapSource(k / 2, a, bits) + k % 2]
  {
    SwapSourceBound(k / 2, a, bits);
  }

  lemma WalkedAtPair(s: seq<real>, a: nat, bits: nat, q: nat, b: nat)
    requires |s| == 2 * Pow2(bits) && q < Pow2(bits) && b < 2
    ensures SwapSource(q, a, bits) < Pow2(bits)
    ensures Walked(s, a, bits)[2 * q + b] == s[2 * SwapSource(q, a, bits) + b]
  {
    var k := 2 * q + b;
    assert k / 2 == q && k % 2 == b;
    WalkedAt(s, a, bits, k);
  }

  lemma WalkedStart(s: seq<real>, bits: nat)
    requires |s| == 2 * Pow2(bits)
    ensures Walked(s, 0, bits) == s
  {
    forall k | 0 <= k < |s|
      ensures Walked(s, 0, bits)[k] == s[k]
    {
      assert SwapSource(k / 2, 0, bits) == k / 2;
      assert k == 2 * (k / 2) + k % 2;
    }
  }

  /** The index arithmetic of one pass: the pair that moves to q at the pass
      at a comes from where the walk up to a + 1 says q's contents come from. */
  lemma WalkIndexStep(q: nat, a: nat, bits: nat)
    requires a < Pow2(bits) && q < Pow2(bits)
    ensures Exchanged(q, a, Partner(a, bits)) < Pow2(bits)
    ensures SwapSource(Exchanged(q, a, Partner(a, bits)), a, bits) == SwapSource(q, a + 1, bits)
  {
    SwapSourceStep(q, a, bits);
  }

  /** The pair that the pass at a brings to q is what the walk up to a + 1
      has at q. */
  lemma WalkedSourceStep(s: seq<real>, a: nat, bits: nat, q: nat, b: nat)
    requires |s| == 2 * Pow2(bits) && a < Pow2(bits) && q < Pow2(bits) && b < 2
    ensures Exchanged(q, a, Partner(a, bits)) < Pow2(bits)
    ensures Walked(s, a, bits)[2 * Exchanged(q, a, Partner(a, bits)) + b]
         == Walked(s, a + 1, bits)[2 * q + b]
  {
    WalkIndexStep(q, a, bits);
    var x := Exchanged(q, a, Partner(a, bits));
    WalkedAtPair(s, a, bits, x, b);
    WalkedAtPair(s, a + 1, bits, q, b);
  }

  lemma WalkedStepAt(s: seq<real>, a: nat, bits: nat, q: nat, b: nat)
    requires |s| == 2 * Pow2(bits) && a < Pow2(bits) && q < Pow2(bits) && b < 2
    ensures ExchangePairs(Walked(s, a, bits), a, Partner(a, bits))[2 * q + b]
         == Walked(s, a + 1, bits)[2 * q + b]
  {
    WalkedSourceStep(s, a, bits, q, b);
    ExchangedAt(Walked(s, a, bits), a, Partner(a, bits), q, b);
  }

  /** Each pass of the loop exchanges a pair with its partner. */
  lemma WalkedStep(s: seq<real>, a: nat, bits: nat)
    requires |s| == 2 * Pow2(bits) && a < Pow2(bits)
    ensures ExchangePairs(Walked(s, a, bits), a, Partner(a, bits)) == Walked(s, a + 1, bits)
  {
    var e := ExchangePairs(Walked(s, a, bits), a, Partner(a, bits));
    var t := Walked(s, a + 1, bits);
    forall k | 0 <= k < |s|
      ensures e[k] == t[k]
    {
      var q, b := k / 2, k % 2;
      assert k == 2 * q + b;
      WalkedStepAt(s, a, bits, q, b);
    }
    assert |e| == |t|;
  }

  /** Each pass of the loop permutes the buffer. */
  lemma WalkedStepPermutes(s: seq<real>, a: nat, bits: nat)
    requires |s| == 2 * Pow2(bits) && a < Pow2(bits)
    ensures multiset(Walked(s, a + 1, bits)) == multiset(Walked(s, a, bits))
  {
    ExchangePermutes(Walked(s, a, bits), a, Partner(a, bits));
    WalkedStep(s, a, bits);
  }

  lemma {:induction false} WalkedPermutes(s: seq<real>, a: nat, bits: nat)
    requires |s| == 2 * Pow2(bits) && a <= Pow2(bits)
    ensures multiset(Walked(s, a, bits)) == multiset(s)
  {
    if a == 0 {
      WalkedStart(s, bits);
    } else {
      WalkedPermutes(s, a - 1, bits);
      WalkedStepPermutes(s, a - 1, bits);
    }
  }

  /** After the last pass every pair is at its bit-reversed place. */
  lemma WalkedEnd(s: seq<real>, bits: nat)
    requires |s| == 2 * Pow2(bits)
    ensures Walked(s, Pow2(bits), bits) == BitReversed(s, bits)
  {
    forall k | 0 <= k < |s|
      ensures Walked(s, Pow2(bits), bits)[k] == BitReversed(s, bits)[k]
    {
      WalkedAt(s, Pow2(bits), bits, k);
    }
  }

  /** The finished walk is the bit-reversal permutation. */
  lemma WalkFinished(s: seq<real>, bits: nat)
    requires |s| == 2 * Pow2(bits)
    ensures Walked(s, Pow2(bits), bits) == BitReversed(s, bits)
    ensures multiset(BitReversed(s, bits)) == multiset(s)
  {
    WalkedEnd(s, bits);
    WalkedPermutes(s, Pow2(bits), bits);
  }

  /** The test and swaps at src/DFT_FFT.c:32-35: the pairs at i and j are
      exchanged when j > i. */
  method SwapIfAbove(data: array<real>, i: nat, j: nat, ghost a: nat, ghost bits: nat)
    requires data.Length == 2 * Pow2(bits) && a < Pow2(bits)
    requires i == 2 * a + 1 && j == 2 * RevBits(a, bits) + 1
    modifies data
    ensures data[..] == ExchangePairs(old(data[..]), a, Partner(a, bits))
  {
    ghost var r := Partner(a, bits);
    if j > i {
      assert r == RevBits(a, bits);
      SwapPairs(data, i, j, a, r);
    } else {
      assert r == a;
      ExchangeSelf(data[..], a);
    }
  }

  /** One pass of the for loop at src/DFT_FFT.c:31-42: the swap, then the walk
      of j to the next bit-reversed index. */
  method ReversalPass(data: array<real>, i: nat, j: nat, nn: nat, ghost a: nat, ghost bits: nat, ghost s: seq<real>)
    returns (j': nat)
    requires nn == Pow2(bits) && data.Length == 2 * nn && |s| == data.Length && a < nn
    requires i == 2 * a + 1 && j == 2 * RevBits(a, bits) + 1
    requires data[..] == Walked(s, a, bits)
    modifies data
    ensures data[..] == Walked(s, a + 1, bits)
    ensures a + 1 < nn ==> j' == 2 * RevBits(a + 1, bits) + 1
  {
    SwapIfAbove(data, i, j, a, bits);
    WalkedStep(s, a, bits);
    j' := NextReversed(j, nn, bits, a);
  }

  /** The for loop of src/DFT_FFT.c:28-42: j walks through the bit-reversed
      pair indices while i walks through the pairs. */
  method ReversalLoop(data: array<real>, nn: nat, ghost bits: nat, ghost s: seq<real>)
    requires nn == Pow2(bits) && data.Length == 2 * nn && |s| == data.Length
    requires data[..] == Walked(s, 0, bits)
    modifies data
    ensures data[..] == Walked(s, nn, bits)
  {
    var n: nat := 2 * nn;
    var j: nat := 1;
    var i: nat := 1;
    ghost var a: nat := 0;
    RevBitsZero(bits);
    while i < n
      invariant i == 2 * a + 1 && 0 <= a <= nn
      invariant a < nn ==> j == 2 * RevBits(a, bits) + 1
      invariant data[..] == Walked(s, a, bits)
    {
      j := ReversalPass(data, i, j, nn, a, bits, s);
      i := i + 2;
      a := a + 1;
    }
  }

  /** The bit-reversal phase of four1: afterwards the pair at pair-position q
      is the original pair at RevBits(q), and the buffer is a permutation of
      the original. */
  method BitReversal(data: array<real>, nn: nat)
    requires IsPow2(nn) && data.Length == 2 * nn
    modifies data
    ensures data[..] == BitReversed(old(data[..]), Log2(nn))
    ensures multiset(data[..]) == multiset(old(data[..]))
  {
    ghost var bits := Log2(nn);
    ghost var s := data[..];
    assert data[..] == Walked(s, 0, bits) by {
      WalkedStart(s, bits);
    }
    ReversalLoop(data, nn, bits, s);
    assert data[..] == BitReversed(s, bits) && multiset(data[..]) == multiset(s) by {
      WalkFinished(s, bits);
    }
  }

  // ---------------------------------------------------------------------------
  // Butterfly stages
  // ---------------------------------------------------------------------------

  /** theta of a stage with half-width mmax (src/DFT_FFT.c:47). */
  function Theta(isign: int, mmax: nat): real
    requires mmax > 0
  {
    (isign as real) * (6.28318530717959 / (mmax as real))
  }

  /** wpr of a stage (src/DFT_FFT.c:48-49). */
  function Wpr(isign: int, mmax: nat, sine: real -> real): real
    requires mmax > 0
  {
    var wtemp := sine(0.5 * Theta(isign, mmax));
    -2.0 * wtemp * wtemp
  }

  /** wpi of a stage (src/DFT_FFT.c:50). */
  function Wpi(isign: int, mmax: nat, sine: real -> real): real
    requires mmax > 0
  {
    sine(Theta(isign, mmax))
  }

  /** A complex number as the pair of its real and imaginary parts. */
  datatype Complex = Complex(re: real, im: real)

  function Plus(a: Complex, b: Complex): Complex
  {
    Complex(a.re + b.re, a.im + b.im)
  }

  function Times(a: Complex, b: Complex): Complex
  {
    Complex(a.re * b.re - a.im * b.im, a.re * b.im + a.im * b.re)
  }

  /** (wr, wi) during the t-th pass of the m loop: 1, then w*wp + w for
      wp = (wpr, wpi), the recurrence of src/DFT_FFT.c:63-64. */
  function Twiddle(t: nat, wpr: real, wpi: real): Complex
  {
    if t == 0 then Complex(1.0, 0.0)
    else
      var w := Twiddle(t - 1, wpr, wpi);
      Plus(Times(w, Complex(wpr, wpi)), w)
  }

  /** The recurrence of src/DFT_FFT.c:63-64, written out on the parts, is w*wp + w. */
  lemma RecurrenceOnParts(wr: real, wi: real, wpr: real, wpi: real)
    ensures var w := Complex(wr, wi);
            Complex(wr * wpr - wi * wpi + wr, wi * wpr + wr * wpi + wi) == Plus(Times(w, Complex(wpr, wpi)), w)
  {
    var w := Complex(wr, wi);
    var z := Plus(Times(w, Complex(wpr, wpi)), w);
    assert z.re == wr * wpr - wi * wpi + wr && z.im == wi * wpr + wr * wpi + wi;
  }

  /** The recurrence takes the twiddle of pass t to that of pass t + 1. */
  lemma TwiddleStep(t: nat, wpr: real, wpi: real, wr: real, wi: real)
    requires Complex(wr, wi) == Twiddle(t, wpr, wpi)
    ensures Complex(wr * wpr - wi * wpi + wr, wi * wpr + wr * wpi + wi) == Twiddle(t + 1, wpr, wpi)
  {
    RecurrenceOnParts(wr, wi, wpr, wpi);
    var w := Complex(wr, wi);
    assert Twiddle(t + 1, wpr, wpi) == Plus(Times(w, Complex(wpr, wpi)), w) by {
      assert t + 1 - 1 == t;
    }
  }

  /** The twiddles of the passes 0 .. count-1 of the m loop. */
  function Twiddles(count: nat, wpr: real, wpi: real): (tw: seq<Complex>)
    ensures |tw| == count
    ensures forall t :: 0 <= t < count ==> tw[t] == Twiddle(t, wpr, wpi)
  {
    seq(count, (t: int) requires 0 <= t < count => Twiddle(t, wpr, wpi))
  }

  /** A buffer whose length is a multiple of 4*half holds a whole number of
      blocks of 2*half pairs. */
  lemma PairCount(len: nat, half: nat)
    requires half >= 1 && len % (4 * half) == 0
    ensures len % 2 == 0 && (len / 2) % (2 * half) == 0
  {
    HalvingDivMod(len, 2 * half);
  }

  /** The partner of a pair in the upper half of its block is in the same block. */
  lemma PartnerInRange(q: nat, half: nat, count: nat)
    requires half >= 1 && count % (2 * half) == 0 && q < count
    ensures q % (2 * half) < half ==> q + half < count
    ensures q % (2 * half) >= half ==> q >= half
  {
    var w := 2 * half;
    var b, bs := q / w, count / w;
    assert q == w * b + q % w;
    assert count == w * bs;
    ModLe(q, w);
    if b >= bs {
      MulMonotone(w, bs, b);
    } else {
      MulMonotone(w, b + 1, bs);
    }
  }

  /** The pass of the m loop that butterflies pair q: its offset in the upper
      or lower half of its block of 2*half pairs. */
  function PassOf(q: nat, half: nat): (t: nat)
    requires half >= 1
    ensures t < half
  {
    var u := q % (2 * half);
    if u < half then u else u - half
  }

  function Minus(a: Complex, b: Complex): Complex
  {
    Complex(a.re - b.re, a.im - b.im)
  }

  /** The q-th complex number of a buffer of interleaved real and imaginary parts. */
  function PairAt(s: seq<real>, q: nat): Complex
    requires 2 * q + 1 < |s|
  {
    Complex(s[2 * q], s[2 * q + 1])
  }

  /** The complex number one stage leaves at pair q of s.  Pairs are combined
      `half` pair-positions apart, in blocks of 2*half pairs (C's mmax is
      2*half reals, istep is 4*half reals); a pair with offset u in its block
      uses the twiddle w of pass u % half of the m loop.  The upper pair x and
      the lower pair y of a butterfly become x + w*y and x - w*y. */
  function StagePair(s: seq<real>, half: nat, tw: seq<Complex>, q: nat): Complex
    requires half >= 1 && |tw| == half && |s| % (4 * half) == 0 && q < |s| / 2
  {
    PairCount(|s|, half);
    PartnerInRange(q, half, |s| / 2);
    var w := tw[PassOf(q, half)];
    if q % (2 * half) < half then Plus(PairAt(s, q), Times(w, PairAt(s, q + half)))
    else Minus(PairAt(s, q - half), Times(w, PairAt(s, q)))
  }

  /** The real at position pos after one stage. */
  function StageAt(s: seq<real>, half: nat, tw: seq<Complex>, pos: nat): real
    requires half >= 1 && |tw| == half && |s| % (4 * half) == 0 && pos < |s|
  {
    PairCount(|s|, half);
    var z := StagePair(s, half, tw, pos / 2);
    if pos % 2 == 0 then z.re else z.im
  }

  /** The buffer after one stage. */
  function StageSpec(s: seq<real>, half: nat, tw: seq<Complex>): (r: seq<real>)
    requires half >= 1 && |tw| == half && |s| % (4 * half) == 0
    ensures |r| == |s|
  {
    seq(|s|, pos requires 0 <= pos < |s| => StageAt(s, half, tw, pos))
  }

  /** One butterfly of the C code on the buffer d with twiddle w, C's 1-based
      indices i and j being those of the real parts of the upper and lower
      pair (src/DFT_FFT.c:55-61). */
  function ButterflyOf(d: seq<real>, i: nat, j: nat, w: Complex): (e: seq<real>)
    requires 1 <= i && i + 1 < j && j < |d|
    ensures |e| == |d|
  {
    var temp := Times(w, Complex(d[j - 1], d[j]));
    d[j - 1 := d[i - 1] - temp.re][j := d[i] - temp.im][i - 1 := d[i - 1] + temp.re][i := d[i] + temp.im]
  }

  /** A butterfly the C loops perform, with the upper pair c (in pass
      c % (2*half) of the m loop) and the lower pair c + half of a block, on
      a buffer d that agrees with s on those two pairs, leaves there what the
      stage on s leaves there. */
  lemma ButterflyDoesStage(d: seq<real>, s: seq<real>, half: nat, tw: seq<Complex>, c: nat)
    requires half >= 1 && |tw| == half && |s| % (4 * half) == 0 && c < |s| / 2 && c % (2 * half) < half
    requires |d| == |s| && 2 * (c + half) + 1 < |s|
    requires PairAt(d, c) == PairAt(s, c) && PairAt(d, c + half) == PairAt(s, c + half)
    ensures var e := ButterflyOf(d, 2 * c + 1, 2 * (c + half) + 1, tw[c % (2 * half)]);
            var r := StageSpec(s, half, tw);
            PairAt(e, c) == PairAt(r, c) && PairAt(e, c + half) == PairAt(r, c + half)
  {
    ButterflyPairs(d, c + half, c, tw[c % (2 * half)]);
    StageResultUpper(s, half, tw, c);
    StageResultLower(s, half, tw, c);
  }

  /** The stage leaves x + w*y at the upper pair c of a butterfly. */
  lemma StageResultUpper(s: seq<real>, half: nat, tw: seq<Complex>, c: nat)
    requires half >= 1 && |tw| == half && |s| % (4 * half) == 0 && c < |s| / 2 && c % (2 * half) < half
    ensures 2 * (c + half) + 1 < |s|
    ensures PairAt(StageSpec(s, half, tw), c) == Plus(PairAt(s, c), Times(tw[c % (2 * half)], PairAt(s, c + half)))
  {
    var upper := StageUpper(s, half, tw, c);
    StageSpecPair(s, half, tw, c);
  }

  /** The stage leaves x - w*y at the lower pair c + half of a butterfly. */
  lemma StageResultLower(s: seq<real>, half: nat, tw: seq<Complex>, c: nat)
    requires half >= 1 && |tw| == half && |s| % (4 * half) == 0 && c < |s| / 2 && c % (2 * half) < half
    ensures 2 * (c + half) + 1 < |s|
    ensures PairAt(StageSpec(s, half, tw), c + half) == Minus(PairAt(s, c), Times(tw[c % (2 * half)], PairAt(s, c + half)))
  {
    var lower := StageLower(s, half, tw, c);
    StageSpecPair(s, half, tw, c + half);
  }

  /** Pair q of the stage result is the stage's pair q. */
  lemma StageSpecPair(s: seq<real>, half: nat, tw: seq<Complex>, q: nat)
    requires half >= 1 && |tw| == half && |s| % (4 * half) == 0 && 2 * q + 1 < |s|
    ensures q < |s| / 2 && PairAt(StageSpec(s, half, tw), q) == StagePair(s, half, tw, q)
  {
    StageAtPair(s, half, tw, q);
  }

  /** A butterfly leaves x + w*y at the upper pair and x - w*y at the lower pair. */
  lemma ButterflyPairs(s: seq<real>, p: nat, c: nat, w: Complex)
    requires c < p && 2 * p + 1 < |s|
    ensures var b := ButterflyOf(s, 2 * c + 1, 2 * p + 1, w);
            var temp := Times(w, PairAt(s, p));
            PairAt(b, c) == Plus(PairAt(s, c), temp) && PairAt(b, p) == Minus(PairAt(s, c), temp)
  {
    ButterflyAt(s, 2 * c + 1, 2 * p + 1, w);
    assert 2 * p + 1 - 1 == 2 * p && 2 * c + 1 - 1 == 2 * c;
  }

  /** The stage result at the upper pair c of a butterfly. */
  lemma StageUpper(s: seq<real>, half: nat, tw: seq<Complex>, c: nat) returns (z: Complex)
    requires half >= 1 && |tw| == half && |s| % (4 * half) == 0 && c < |s| / 2 && c % (2 * half) < half
    ensures 2 * (c + half) + 1 < |s|
    ensures z == StagePair(s, half, tw, c)
    ensures z == Plus(PairAt(s, c), Times(tw[c % (2 * half)], PairAt(s, c + half)))
  {
    PairCount(|s|, half);
    PartnerInRange(c, half, |s| / 2);
    z := StagePair(s, half, tw, c);
  }

  /** The stage result at the lower pair c + half of a butterfly. */
  lemma StageLower(s: seq<real>, half: nat, tw: seq<Complex>, c: nat) returns (z: Complex)
    requires half >= 1 && |tw| == half && |s| % (4 * half) == 0 && c < |s| / 2 && c % (2 * half) < half
    ensures 2 * (c + half) + 1 < |s|
    ensures z == StagePair(s, half, tw, c + half)
    ensures z == Minus(PairAt(s, c), Times(tw[c % (2 * half)], PairAt(s, c + half)))
  {
    PairCount(|s|, half);
    PartnerInRange(c, half, |s| / 2);
    ModShift(c, half, 2 * half);
    assert PassOf(c + half, half) == c % (2 * half);
    assert c + half - half == c;
    z := StagePair(s, half, tw, c + half);
  }

  /** The two reals of pair q after the stage. */
  lemma StageAtPair(s: seq<real>, half: nat, tw: seq<Complex>, q: nat)
    requires half >= 1 && |tw| == half && |s| % (4 * half) == 0 && 2 * q + 1 < |s|
    ensures q < |s| / 2
    ensures StageSpec(s, half, tw)[2 * q] == StagePair(s, half, tw, q).re
    ensures StageSpec(s, half, tw)[2 * q + 1] == StagePair(s, half, tw, q).im
  {
    assert (2 * q) / 2 == q && (2 * q) % 2 == 0 && (2 * q + 1) / 2 == q && (2 * q + 1) % 2 == 1;
  }

  /** Which pairs the m and i loops of a stage have butterflied when pass t of
      the m loop has reached the pair c: those of earlier passes, and those of
      pass t whose upper pair lies below c. */
  predicate Done(q: nat, half: nat, t: nat, c: nat)
    requires half >= 1
  {
    var u := q % (2 * half);
    var upper := if u < half then q else q - half;
    PassOf(q, half) < t || (PassOf(q, half) == t && upper < c)
  }

  /** The upper pair of a butterfly has the pass as its remainder. */
  lemma UpperResidue(q: nat, half: nat)
    requires half >= 1
    ensures var u := q % (2 * half);
            var upper := if u < half then q else q - half;
            upper >= 0 && upper % (2 * half) == PassOf(q, half) && upper >= PassOf(q, half)
  {
    var u := q % (2 * half);
    if u >= half {
      ModLe(q, 2 * half);
      DivModUnique(q - half, 2 * half, q / (2 * half), u - half);
      ModLe(q - half, 2 * half);
    } else {
      ModLe(q, 2 * half);
    }
  }

  /** The i loop moves from the butterfly at c to the one at c + 2*half. */
  lemma DoneStep(q: nat, half: nat, t: nat, c: nat)
    requires half >= 1 && t < half && c % (2 * half) == t
    ensures Done(q, half, t, c + 2 * half) <==> (Done(q, half, t, c) || q == c || q == c + half)
  {
    var w := 2 * half;
    ModShift(c, half, w);
    UpperResidue(q, half);
    var u := q % w;
    var upper := if u < half then q else q - half;
    if PassOf(q, half) == t && c <= upper < c + w {
      SameResidue(c, upper, w);
    }
  }

  /** At the start of pass t the pairs of the earlier passes are done. */
  lemma DoneStart(q: nat, half: nat, t: nat)
    requires half >= 1
    ensures Done(q, half, t, t) <==> PassOf(q, half) < t
  {
    UpperResidue(q, half);
  }

  /** What position pos holds when pass t of a stage on s, whose result is r,
      has reached the pair c. */
  function Expected(s: seq<real>, r: seq<real>, half: nat, t: nat, c: nat, pos: nat): real
    requires half >= 1 && |r| == |s| && pos < |s|
  {
    if Done(pos / 2, half, t, c) then r[pos] else s[pos]
  }

  /** The buffer d when pass t of the stage taking s to r has reached the pair c. */
  ghost predicate Progress(d: seq<real>, s: seq<real>, r: seq<real>, half: nat, t: nat, c: nat)
    requires half >= 1 && |r| == |s|
  {
    |d| == |s| &&
    forall pos {:trigger Expected(s, r, half, t, c, pos)} ::
      0 <= pos < |d| ==> d[pos] == Expected(s, r, half, t, c, pos)
  }

  lemma ProgressStart(s: seq<real>, r: seq<real>, half: nat)
    requires half >= 1 && |r| == |s|
    ensures Progress(s, s, r, half, 0, 0)
  {
    forall pos | 0 <= pos < |s|
      ensures s[pos] == Expected(s, r, half, 0, 0, pos)
    {
      UpperResidue(pos / 2, half);
      assert !Done(pos / 2, half, 0, 0);
    }
  }

  /** Positions outside the pairs c and c + half keep their expected value. */
  lemma ProgressKeeps(d: seq<real>, s: seq<real>, r: seq<real>, half: nat, t: nat, c: nat, pos: nat)
    requires half >= 1 && |r| == |s| && t < half && c % (2 * half) == t
    requires Progress(d, s, r, half, t, c) && pos < |s| && pos / 2 != c && pos / 2 != c + half
    ensures d[pos] == Expected(s, r, half, t, c + 2 * half, pos)
  {
    DoneStep(pos / 2, half, t, c);
    assert d[pos] == Expected(s, r, half, t, c, pos);
  }

  /** The pairs c and c + half are not yet done when the i loop reaches c. */
  lemma ProgressPending(d: seq<real>, s: seq<real>, r: seq<real>, half: nat, t: nat, c: nat, pos: nat)
    requires half >= 1 && |r| == |s| && t < half && c % (2 * half) == t
    requires Progress(d, s, r, half, t, c) && pos < |s| && (pos / 2 == c || pos / 2 == c + half)
    ensures d[pos] == s[pos] && Expected(s, r, half, t, c + 2 * half, pos) == r[pos]
  {
    DoneStep(pos / 2, half, t, c);
    UpperResidue(c, half);
    UpperResidue(c + half, half);
    ModShift(c, half, 2 * half);
    assert !Done(pos / 2, half, t, c);
    assert d[pos] == Expected(s, r, half, t, c, pos);
  }

  /** What one butterfly leaves at each position. */
  lemma ButterflyAt(d: seq<real>, i: nat, j: nat, w: Complex)
    requires 1 <= i && i + 1 < j && j < |d|
    ensures var e := ButterflyOf(d, i, j, w);
            var temp := Times(w, Complex(d[j - 1], d[j]));
            e[i - 1] == d[i - 1] + temp.re && e[i] == d[i] + temp.im &&
            e[j - 1] == d[i - 1] - temp.re && e[j] == d[i] - temp.im
    ensures forall k :: 0 <= k < |d| && k != i - 1 && k != i && k != j - 1 && k != j ==>
              ButterflyOf(d, i, j, w)[k] == d[k]
  {
  }

  /** A buffer that, after the progress at c, takes r's values on the pairs c
      and c + half and keeps the rest has the progress at c + 2*half. */
  lemma ProgressUpdate(d: seq<real>, e: seq<real>, s: seq<real>, r: seq<real>, half: nat, t: nat, c: nat)
    requires half >= 1 && |r| == |s| && t < half && c % (2 * half) == t
    requires Progress(d, s, r, half, t, c) && |e| == |d| && 2 * (c + half) + 1 < |s|
    requires PairAt(e, c) == PairAt(r, c) && PairAt(e, c + half) == PairAt(r, c + half)
    requires forall k :: 0 <= k < |d| && k != 2 * c && k != 2 * c + 1 && k != 2 * (c + half) && k != 2 * (c + half) + 1 ==>
               e[k] == d[k]
    ensures Progress(e, s, r, half, t, c + 2 * half)
  {
    var f := 2 * (c + half);
    forall pos | 0 <= pos < |e|
      ensures e[pos] == Expected(s, r, half, t, c + 2 * half, pos)
    {
      if pos / 2 == c {
        assert pos == 2 * c || pos == 2 * c + 1;
        ProgressPending(d, s, r, half, t, c, pos);
      } else if pos / 2 == c + half {
        assert pos == f || pos == f + 1;
        ProgressPending(d, s, r, half, t, c, pos);
      } else {
        assert pos != 2 * c && pos != 2 * c + 1 && pos != f && pos != f + 1;
        ProgressKeeps(d, s, r, half, t, c, pos);
      }
    }
  }

  /** One pass of the i loop (src/DFT_FFT.c:54-62) extends the progress. */
  lemma ProgressStep(d: seq<real>, s: seq<real>, half: nat, tw: seq<Complex>, t: nat, c: nat)
    requires half >= 1 && |tw| == half && |s| % (4 * half) == 0 && t < half
    requires c % (2 * half) == t && c < |s| / 2
    requires Progress(d, s, StageSpec(s, half, tw), half, t, c)
    ensures 2 * (c + half) + 1 < |s|
    ensures Progress(ButterflyOf(d, 2 * c + 1, 2 * (c + half) + 1, tw[t]), s, StageSpec(s, half, tw), half, t, c + 2 * half)
  {
    var r := StageSpec(s, half, tw);
    var w := tw[t];
    PairCount(|s|, half);
    PartnerInRange(c, half, |s| / 2);
    var e := ButterflyOf(d, 2 * c + 1, 2 * (c + half) + 1, w);
    PendingPairs(d, s, r, half, t, c);
    ButterflyDoesStage(d, s, half, tw, c);
    ButterflyKeeps(d, c, c + half, w);
    ProgressUpdate(d, e, s, r, half, t, c);
  }

  /** The two pairs of the butterfly at c still hold their values from s. */
  lemma PendingPairs(d: seq<real>, s: seq<real>, r: seq<real>, half: nat, t: nat, c: nat)
    requires half >= 1 && |r| == |s| && t < half && c % (2 * half) == t
    requires Progress(d, s, r, half, t, c) && 2 * (c + half) + 1 < |s|
    ensures PairAt(d, c) == PairAt(s, c) && PairAt(d, c + half) == PairAt(s, c + half)
  {
    var f := 2 * (c + half);
    assert (2 * c) / 2 == c && (2 * c + 1) / 2 == c && f / 2 == c + half && (f + 1) / 2 == c + half;
    ProgressPending(d, s, r, half, t, c, 2 * c);
    ProgressPending(d, s, r, half, t, c, 2 * c + 1);
    ProgressPending(d, s, r, half, t, c, f);
    ProgressPending(d, s, r, half, t, c, f + 1);
  }

  /** A butterfly on the pairs c and p leaves every other position alone. */
  lemma ButterflyKeeps(d: seq<real>, c: nat, p: nat, w: Complex)
    requires c < p && 2 * p + 1 < |d|
    ensures forall k :: 0 <= k < |d| && k != 2 * c && k != 2 * c + 1 && k != 2 * p && k != 2 * p + 1 ==>
              ButterflyOf(d, 2 * c + 1, 2 * p + 1, w)[k] == d[k]
  {
    ButterflyAt(d, 2 * c + 1, 2 * p + 1, w);
  }

  /** A pair below c is done in pass t up to c exactly when it is done before pass t + 1. */
  lemma DoneNextPass(q: nat, half: nat, t: nat, c: nat)
    requires half >= 1 && q < c
    ensures Done(q, half, t, c) <==> Done(q, half, t + 1, t + 1)
  {
    DoneStart(q, half, t + 1);
    UpperResidue(q, half);
  }

  /** When the i loop has run past the buffer, pass t is complete. */
  lemma ProgressNextPass(d: seq<real>, s: seq<real>, r: seq<real>, half: nat, t: nat, c: nat)
    requires half >= 1 && |r| == |s| && |s| % 2 == 0 && c >= |s| / 2
    requires Progress(d, s, r, half, t, c)
    ensures Progress(d, s, r, half, t + 1, t + 1)
  {
    forall pos | 0 <= pos < |d|
      ensures d[pos] == Expected(s, r, half, t + 1, t + 1, pos)
    {
      assert pos / 2 < c;
      DoneNextPass(pos / 2, half, t, c);
      assert d[pos] == Expected(s, r, half, t, c, pos);
    }
  }

  /** After the last pass of the m loop the whole stage is done. */
  lemma ProgressEnd(d: seq<real>, s: seq<real>, r: seq<real>, half: nat)
    requires half >= 1 && |r| == |s|
    requires Progress(d, s, r, half, half, half)
    ensures d == r
  {
    forall pos | 0 <= pos < |d|
      ensures d[pos] == r[pos]
    {
      DoneStart(pos / 2, half, half);
      assert d[pos] == Expected(s, r, half, half, half, pos);
    }
  }

  /** One butterfly (src/DFT_FFT.c:55-61, C indices i and j). */
  method Butterfly(data: array<real>, i: nat, j: nat, wr: real, wi: real)
    requires 1 <= i && i + 1 < j && j < data.Length
    modifies data
    ensures data[..] == ButterflyOf(old(data[..]), i, j, Complex(wr, wi))
  {
    ghost var d := data[..];
    ghost var e := ButterflyOf(d, i, j, Complex(wr, wi));
    var tempr := wr * data[j - 1] - wi * data[j];
    var tempi := wr * data[j] + wi * data[j - 1];
    data[j - 1] := data[i - 1] - tempr;
    data[j] := data[i] - tempi;
    data[i - 1] := data[i - 1] + tempr;
    data[i] := data[i] + tempi;
    ButterflyAt(d, i, j, Complex(wr, wi));
    forall k | 0 <= k < data.Length
      ensures data[k] == e[k]
    {
      if k != i - 1 && k != i && k != j - 1 && k != j {
        assert data[k] == d[k];
      }
    }
  }

  /** One pass of the m loop: the i loop of src/DFT_FFT.c:54-62 with the
      twiddle (wr, wi) of pass t. */
  method StagePass(data: array<real>, m: nat, mmax: nat, wr: real, wi: real,
                   ghost s: seq<real>, ghost half: nat, ghost tw: seq<Complex>, ghost r: seq<real>, ghost t: nat)
    requires half >= 1 && mmax == 2 * half && |tw| == half && |s| == data.Length && |s| % (4 * half) == 0
    requires m == 2 * t + 1 && t < half && Complex(wr, wi) == tw[t] && r == StageSpec(s, half, tw)
    requires Progress(data[..], s, r, half, t, t)
    modifies data
    ensures Progress(data[..], s, r, half, t + 1, t + 1)
  {
    var n := data.Length;
    var istep: nat := 2 * mmax;
    ghost var c := t;
    PairCount(|s|, half);
    assert n == 2 * (n / 2);
    ModLe(t, 2 * half);
    var i := m;
    while i <= n
      invariant i == 2 * c + 1 && c % (2 * half) == t
      invariant Progress(data[..], s, r, half, t, c)
      decreases n + 1 - i
    {
      ghost var d := data[..];
      assert c < |s| / 2;
      ProgressStep(d, s, half, tw, t, c);
      var j := i + mmax;
      assert j == 2 * (c + half) + 1;
      Butterfly(data, i, j, wr, wi);
      assert data[..] == ButterflyOf(d, 2 * c + 1, 2 * (c + half) + 1, tw[t]);
      ModStep(c, 2 * half);
      i := i + istep;
      c := c + 2 * half;
    }
    ProgressNextPass(data[..], s, r, half, t, c);
  }

  /** One stage of the butterfly phase (the body of the while loop at
      src/DFT_FFT.c:45-67, for one value of mmax). */
  method Stage(data: array<real>, mmax: nat, isign: int, sine: real -> real)
    requires mmax >= 2 && mmax % 2 == 0 && data.Length % (2 * mmax) == 0
    modifies data
    ensures data[..] == StageSpec(old(data[..]), mmax / 2, Twiddles(mmax / 2, Wpr(isign, mmax, sine), Wpi(isign, mmax, sine)))
  {
    var theta := (isign as real) * (6.28318530717959 / (mmax as real));
    var wtemp := sine(0.5 * theta);
    var wpr := -2.0 * wtemp * wtemp;
    var wpi := sine(theta);
    var wr, wi := 1.0, 0.0;
    assert theta == Theta(isign, mmax);
    assert wpr == Wpr(isign, mmax, sine) && wpi == Wpi(isign, mmax, sine);
    ghost var half := mmax / 2;
    assert mmax == 2 * half && 2 * mmax == 4 * half;
    ghost var s := data[..];
    ghost var tw := Twiddles(half, wpr, wpi);
    ghost var r := StageSpec(s, half, tw);
    ProgressStart(s, r, half);
    var m: nat := 1;
    ghost var t: nat := 0;
    while m < mmax
      invariant m == 2 * t + 1 && 0 <= t <= half
      invariant Complex(wr, wi) == Twiddle(t, wpr, wpi)
      invariant Progress(data[..], s, r, half, t, t)
    {
      StagePass(data, m, mmax, wr, wi, s, half, tw, r, t);
      TwiddleStep(t, wpr, wpi, wr, wi);
      wtemp := wr;
      wr := wtemp * wpr - wi * wpi + wr;
      wi := wi * wpr + wtemp * wpi + wi;
      m := m + 2;
      t := t + 1;
    }
    ProgressEnd(data[..], s, r, half);
  }

  // ---------------------------------------------------------------------------
  // The whole transform
  // ---------------------------------------------------------------------------

  /** A stage with mmax = 2^e, 1 <= e <= bits, fits a buffer of 2^(bits+1) reals. */
  lemma StageFits(e: nat, bits: nat)
    requires 1 <= e <= bits
    ensures Pow2(e) >= 2 && Pow2(e) % 2 == 0 && Pow2(bits + 1) % (4 * (Pow2(e) / 2)) == 0
  {
    var p := Pow2(e - 1);
    assert Pow2(e) == 2 * p;
    assert Pow2(e) / 2 == p;
    assert Pow2(e + 1) == 4 * p;
    Pow2Divides(e + 1, bits + 1);
    assert Pow2(bits + 1) % (4 * p) == 0;
  }

  /** The stages with mmax = 2^e, 2^(e+1), ..., 2^bits (that is, while n > mmax). */
  function Stages(s: seq<real>, bits: nat, e: nat, isign: int, sine: real -> real): (r: seq<real>)
    requires |s| == Pow2(bits + 1) && 1 <= e <= bits + 1
    ensures |r| == |s|
    decreases bits + 1 - e
  {
    if e <= bits then
      StageFits(e, bits);
      var mmax := Pow2(e);
      Stages(StageSpec(s, mmax / 2, Twiddles(mmax / 2, Wpr(isign, mmax, sine), Wpi(isign, mmax, sine))), bits, e + 1, isign, sine)
    else s
  }

  /** What four1(data-1, nn, isign) leaves in the 2*nn reals of data. */
  function Four1Spec(s: seq<real>, nn: nat, isign: int, sine: real -> real): (r: seq<real>)
    requires IsPow2(nn) && |s| == 2 * nn
    ensures |r| == |s|
  {
    Stages(BitReversed(s, Log2(nn)), Log2(nn), 1, isign, sine)
  }

  /** Stages unrolled once. */
  lemma StagesStep(s: seq<real>, bits: nat, e: nat, isign: int, sine: real -> real)
    requires |s| == Pow2(bits + 1) && 1 <= e <= bits
    ensures Pow2(bits + 1) % (2 * Pow2(e)) == 0
    ensures var mmax := Pow2(e);
            Stages(s, bits, e, isign, sine) ==
            Stages(StageSpec(s, mmax / 2, Twiddles(mmax / 2, Wpr(isign, mmax, sine), Wpi(isign, mmax, sine))), bits, e + 1, isign, sine)
  {
    Pow2Divides(e + 1, bits + 1);
  }

  /** The butterfly phase of four1 (the while loop at src/DFT_FFT.c:44-67). */
  method ButterflyStages(data: array<real>, nn: nat, isign: int, sine: real -> real)
    requires IsPow2(nn) && data.Length == 2 * nn
    modifies data
    ensures Pow2(Log2(nn) + 1) == data.Length
    ensures data[..] == Stages(old(data[..]), Log2(nn), 1, isign, sine)
  {
    ghost var bits := Log2(nn);
    assert Pow2(bits + 1) == 2 * nn;
    StageLoop(data, 2 * nn, isign, sine, bits);
  }

  /** The while loop itself, on n = 2^(bits+1) reals. */
  method StageLoop(data: array<real>, n: nat, isign: int, sine: real -> real, ghost bits: nat)
    requires n == data.Length == Pow2(bits + 1)
    modifies data
    ensures data[..] == Stages(old(data[..]), bits, 1, isign, sine)
  {
    ghost var r := data[..];
    var mmax: nat := 2;
    ghost var e: nat := 1;
    while n > mmax
      invariant 1 <= e <= bits + 1 && mmax == Pow2(e)
      invariant Stages(data[..], bits, e, isign, sine) == Stages(r, bits, 1, isign, sine)
      decreases n - mmax
    {
      NextStage(data, mmax, isign, sine, bits, e);
      mmax := 2 * mmax;
      e := e + 1;
    }
    StagesEnd(data[..], bits, e, isign, sine);
  }

  /** One turn of the while loop: the stage with mmax = 2^e. */
  method NextStage(data: array<real>, mmax: nat, isign: int, sine: real -> real, ghost bits: nat, ghost e: nat)
    requires 1 <= e <= bits && mmax == Pow2(e) && data.Length == Pow2(bits + 1)
    modifies data
    ensures Stages(data[..], bits, e + 1, isign, sine) == Stages(old(data[..]), bits, e, isign, sine)
  {
    StagesStep(data[..], bits, e, isign, sine);
    Stage(data, mmax, isign, sine);
  }

  /** Once mmax = 2^e has reached the buffer length no stage is left. */
  lemma StagesEnd(s: seq<real>, bits: nat, e: nat, isign: int, sine: real -> real)
    requires |s| == Pow2(bits + 1) && 1 <= e <= bits + 1 && |s| <= Pow2(e)
    ensures Stages(s, bits, e, isign, sine) == s
  {
    if e <= bits {
      Pow2Monotone(e, bits + 1);
    }
  }

  /** four1 of src/DFT_FFT.c:22-68: the bit-reversal permutation, then the
      butterfly stages. */
  method Four1(data: array<real>, nn: nat, isign: int, sine: real -> real)
    requires IsPow2(nn) && data.Length == 2 * nn
    modifies data
    ensures data[..] == Four1Spec(old(data[..]), nn, isign, sine)
  {
    BitReversal(data, nn);
    ButterflyStages(data, nn, isign, sine);
  }

  /** With nn = 1 the transform leaves the buffer unchanged. */
  lemma Four1OfOnePair(s: seq<real>, isign: int, sine: real -> real)
    requires |s| == 2
    ensures Four1Spec(s, 1, isign, sine) == s
  {
    assert Log2(1) == 0;
    forall k | 0 <= k < 2
      ensures BitReversed(s, 0)[k] == s[k]
    {
    }
  }

  /** The sine with its argument negated. */
  function Reflected(sine: real -> real): real -> real
  {
    x => sine(-x)
  }

  /** The inverse stage's wpr and wpi are the forward ones under the reflected sine. */
  lemma FactorsMirror(mmax: nat, sine: real -> real)
    requires mmax > 0
    ensures Wpr(-1, mmax, sine) == Wpr(1, mmax, Reflected(sine))
    ensures Wpi(-1, mmax, sine) == Wpi(1, mmax, Reflected(sine))
  {
    assert Theta(-1, mmax) == -Theta(1, mmax);
    assert 0.5 * Theta(-1, mmax) == -(0.5 * Theta(1, mmax));
  }

  /** The inverse transform is the forward one with the angle negated: isign
      only enters through theta, and nothing is scaled. */
  lemma {:induction false} StagesInverseMirrorsForward(s: seq<real>, bits: nat, e: nat, sine: real -> real)
    requires |s| == Pow2(bits + 1) && 1 <= e <= bits + 1
    ensures Stages(s, bits, e, -1, sine) == Stages(s, bits, e, 1, Reflected(sine))
    decreases bits + 1 - e
  {
    if e <= bits {
      var mmax := Pow2(e);
      FactorsMirror(mmax, sine);
      StageFits(e, bits);
      StagesInverseMirrorsForward(StageSpec(s, mmax / 2, Twiddles(mmax / 2, Wpr(-1, mmax, sine), Wpi(-1, mmax, sine))), bits, e + 1, sine);
    }
  }

  lemma InverseMirrorsForward(s: seq<real>, nn: nat, sine: real -> real)
    requires IsPow2(nn) && |s| == 2 * nn
    ensures Four1Spec(s, nn, -1, sine) == Four1Spec(s, nn, 1, Reflected(sine))
  {
    var bits := Log2(nn);
    assert Pow2(bits + 1) == 2 * nn;
    StagesInverseMirrorsForward(BitReversed(s, bits), bits, 1, sine);
  }
}
