/** The convolution engine of src/convolve.h (repeated verbatim in
    src/alg-opt/convolve_before.h and src/alg-opt/convolve_after.h): the
    input-side convolver, the normaliser and the overlap-add FFT convolver
    with its helpers.  The process-wide globals N, M, P, max, X, H and Y are
    the fields of one Engine object; samples are reals, and DBL_MIN is an
    arbitrary positive constant. */
module Convolve {
  import opened CArith
  import opened Fft
  import opened OverlapAdd

  // ---------------------------------------------------------------------------
  // The convolution sum
  // ---------------------------------------------------------------------------

  /** The part of output sample k that the first i input samples contribute:
      the sum of x[i'] * h[k - i'] over i' < i with 0 <= k - i' < |h|. */
  function PartialConv(x: seq<real>, h: seq<real>, k: int, i: nat): real
    requires i <= |x|
  {
    if i == 0 then 0.0
    else PartialConv(x, h, k, i - 1) + (if 0 <= k - (i - 1) < |h| then x[i - 1] * h[k - (i - 1)] else 0.0)
  }

  /** Output sample k of the convolution of x with h: the sum of x[i] * h[j]
      over i + j == k. */
  function Conv(x: seq<real>, h: seq<real>, k: int): real
  {
    PartialConv(x, h, k, |x|)
  }

  /** Silence in gives silence out. */
  lemma {:induction false} PartialConvOfSilence(x: seq<real>, h: seq<real>, k: int, i: nat)
    requires i <= |x| && forall t :: 0 <= t < |x| ==> x[t] == 0.0
    ensures PartialConv(x, h, k, i) == 0.0
  {
    if i > 0 {
      PartialConvOfSilence(x, h, k, i - 1);
    }
  }

  /** Outside 0 <= k < |x| + |h| - 1 no pair i + j == k exists, so the
      P = N + M - 1 samples of Y hold the whole convolution. */
  lemma {:induction false} PartialConvOutside(x: seq<real>, h: seq<real>, k: int, i: nat)
    requires i <= |x| && (k < 0 || k >= |x| + |h| - 1)
    ensures PartialConv(x, h, k, i) == 0.0
  {
    if i > 0 {
      PartialConvOutside(x, h, k, i - 1);
    }
  }

  /** The value Y[i + j] holds right after the update at (i, j) of the
      convolver's nested loop: the terms of i' <= i. */
  function Observed(x: seq<real>, h: seq<real>, i: nat, j: nat): real
    requires i < |x|
  {
    PartialConv(x, h, i + j, i + 1)
  }

  /** Sample k during the inner loop of pass i, after the updates j' < j. */
  function Accumulating(x: seq<real>, h: seq<real>, k: int, i: nat, j: nat): real
    requires i < |x| && j <= |h|
  {
    PartialConv(x, h, k, i) + (if i <= k < i + j then x[i] * h[k - i] else 0.0)
  }

  /** One update Y[i + j] += X[i] * H[j] of the inner loop; the updated
      sample is then the observed partial sum. */
  lemma AccumulatingStep(x: seq<real>, h: seq<real>, t: int, i: nat, j: nat)
    requires i < |x| && j < |h|
    ensures Accumulating(x, h, t, i, j + 1)
         == Accumulating(x, h, t, i, j) + (if t == i + j then x[i] * h[j] else 0.0)
    ensures t == i + j ==> Accumulating(x, h, t, i, j + 1) == Observed(x, h, i, j)
  {
  }

  // ---------------------------------------------------------------------------
  // The running maximum of absolute values
  // ---------------------------------------------------------------------------

  /** One step of the maximum: `if (fabs(v) > max) max = fabs(v)`. */
  function Raise(mx: real, v: real): (r: real)
    ensures r >= mx && r >= Abs(v) && (r == mx || r == Abs(v))
  {
    if Abs(v) > mx then Abs(v) else mx
  }

  /** The maximum after scanning s in order, starting from seed. */
  function ScanMax(seed: real, s: seq<real>): real
    decreases |s|
  {
    if |s| == 0 then seed else Raise(ScanMax(seed, s[..|s| - 1]), s[|s| - 1])
  }

  /** The scan is at least the seed and at least every |s[k]|. */
  lemma {:induction false} ScanMaxBounds(seed: real, s: seq<real>)
    ensures ScanMax(seed, s) >= seed
    ensures forall k :: 0 <= k < |s| ==> Abs(s[k]) <= ScanMax(seed, s)
    decreases |s|
  {
    if |s| > 0 {
      var init := s[..|s| - 1];
      ScanMaxBounds(seed, init);
      forall k | 0 <= k < |s|
        ensures Abs(s[k]) <= ScanMax(seed, s)
      {
        if k < |s| - 1 {
          assert s[k] == init[k];
        }
      }
    }
  }

  /** The scan is the seed or one of the |s[k]|: with ScanMaxBounds, it is
      max(seed, max_k |s[k]|). */
  lemma {:induction false} ScanMaxAttained(seed: real, s: seq<real>)
    ensures ScanMax(seed, s) == seed || exists k :: 0 <= k < |s| && ScanMax(seed, s) == Abs(s[k])
    decreases |s|
  {
    if |s| > 0 {
      var init := s[..|s| - 1];
      ScanMaxAttained(seed, init);
      if ScanMax(seed, s) != Abs(s[|s| - 1]) && ScanMax(seed, s) != seed {
        var k :| 0 <= k < |init| && ScanMax(seed, init) == Abs(init[k]);
        assert s[k] == init[k];
      }
    }
  }

  /** Scanning a then b is scanning a + b. */
  lemma {:induction false} ScanMaxConcat(seed: real, a: seq<real>, b: seq<real>)
    ensures ScanMax(ScanMax(seed, a), b) == ScanMax(seed, a + b)
    decreases |b|
  {
    if |b| > 0 {
      var b' := b[..|b| - 1];
      ScanMaxConcat(seed, a, b');
      assert (a + b)[..|a + b| - 1] == a + b';
      assert (a + b)[|a + b| - 1] == b[|b| - 1];
    } else {
      assert a + b == a;
    }
  }

  /** Dividing by a maximum of absolute values gives a sample in [-1, 1]. */
  lemma InUnitRange(v: real, mx: real)
    requires mx > 0.0 && Abs(v) <= mx
    ensures -1.0 <= v / mx <= 1.0
  {
    var q := v / mx;
    assert q * mx == v;
  }

  /** The convolution of x with h, P = |x| + |h| - 1 samples. */
  function ConvSeq(x: seq<real>, h: seq<real>, p: nat): (y: seq<real>)
    ensures |y| == p
  {
    seq(p, k => Conv(x, h, k))
  }

  /** realloc: a fresh array of len elements whose common prefix with a is
      kept; the rest is unspecified. */
  method Realloc(a: array<real>, len: nat) returns (b: array<real>)
    ensures fresh(b) && b.Length == len
    ensures forall k :: 0 <= k < a.Length && k < len ==> b[k] == a[k]
  {
    b := new real[len];
    var k := 0;
    while k < len && k < a.Length
      invariant 0 <= k <= len
      invariant forall t :: 0 <= t < k && t < a.Length ==> b[t] == a[t]
    {
      b[k] := a[k];
      k := k + 1;
    }
  }

  // ---------------------------------------------------------------------------
  // The engine: the globals of src/convolve.h:8-12
  // ---------------------------------------------------------------------------

  class Engine {
    /** DBL_MIN of float.h: the seed of every maximum. */
    const dblMin: real
    /** X.length and X.sampleData: the dry recording. */
    var xLen: int
    var x: array<real>
    /** H.length and H.sampleData: the impulse response. */
    var hLen: int
    var h: array<real>
    var n: int
    var m: int
    var p: int
    /** The global max. */
    var maxAbs: real
    var y: array<real>

    ghost predicate Valid()
      reads this
    {
      dblMin > 0.0 && 0 <= xLen <= x.Length && 0 <= hLen <= h.Length
      && x != y && h != y && x != h
    }

    /** The state after initialize (src/convolve.h:17-22) has read both
        recordings; Y is not allocated yet. */
    constructor (dblMin: real, xs: seq<real>, hs: seq<real>)
      requires dblMin > 0.0
      ensures Valid() && this.dblMin == dblMin
      ensures x[..] == xs && xLen == |xs| && h[..] == hs && hLen == |hs|
      ensures fresh(x) && fresh(h) && fresh(y)
    {
      this.dblMin := dblMin;
      x := new real[|xs|](k requires 0 <= k < |xs| => xs[k]);
      xLen := |xs|;
      h := new real[|hs|](k requires 0 <= k < |hs| => hs[k]);
      hLen := |hs|;
      y := new real[0];
      n, m, p := 0, 0, 0;
      maxAbs := dblMin;
      new;
      assert x[..] == xs && h[..] == hs;
    }

    /** The sizes and allocation at the start of convolve
        (src/convolve.h:239-248): P = N + M - 1; a negative size makes the
        malloc fail, reported by ok == false. */
    method Allocate() returns (ok: bool)
      requires Valid()
      modifies this`n, this`m, this`p, this`y
      ensures Valid() && n == xLen && m == hLen && p == n + m - 1
      ensures ok == (p >= 0)
      ensures ok ==> fresh(y) && y.Length == p
      ensures !ok ==> y == old(y)
    {
      n := xLen;
      m := hLen;
      p := n + m - 1;
      ok := p >= 0;
      if ok {
        y := new real[p];
      }
    }

    /** One step of the inner loop of convolve_input_side
        (src/convolve.h:36-41): X[i] * H[j] is added into Y[i + j] and max
        follows the updated sample.  (wi, wj) is where max was last raised,
        wi < 0 while max is still DBL_MIN. */
    method AddTerm(i: nat, j: nat, ghost xs: seq<real>, ghost hs: seq<real>, ghost wi: int, ghost wj: nat)
        returns (ghost wi': int, ghost wj': nat)
      requires Valid() && n == xLen && m == hLen && p == n + m - 1 && y.Length == p
      requires xs == x[..n] && hs == h[..m] && i < n && j < m && -1 <= wi <= i && (wi >= 0 ==> wj < m)
      requires forall t :: 0 <= t < p ==> y[t] == Accumulating(xs, hs, t, i, j)
      requires maxAbs >= dblMin && forall t :: 0 <= t < p ==> Abs(y[t]) <= maxAbs
      requires if wi < 0 then maxAbs == dblMin else maxAbs == Abs(Observed(xs, hs, wi, wj))
      modifies this`maxAbs, y
      ensures -1 <= wi' <= i && (wi' >= 0 ==> wj' < m)
      ensures forall t :: 0 <= t < p ==> y[t] == Accumulating(xs, hs, t, i, j + 1)
      ensures maxAbs >= old(maxAbs) && Abs(Observed(xs, hs, i, j)) <= maxAbs
      ensures forall t :: 0 <= t < p ==> Abs(y[t]) <= maxAbs
      ensures if wi' < 0 then maxAbs == dblMin else maxAbs == Abs(Observed(xs, hs, wi', wj'))
    {
      wi', wj' := wi, wj;
      ghost var before := y[..];
      y[i + j] := y[i + j] + x[i] * h[j];
      forall t | 0 <= t < p
        ensures y[t] == Accumulating(xs, hs, t, i, j + 1)
      {
        AccumulatingStep(xs, hs, t, i, j);
        assert before[t] == Accumulating(xs, hs, t, i, j);
      }
      assert y[i + j] == Observed(xs, hs, i, j) by {
        AccumulatingStep(xs, hs, i + j, i, j);
      }
      var absVal := Abs(y[i + j]);
      if absVal > maxAbs {
        maxAbs := absVal;
        wi', wj' := i, j;
      }
    }

    /** The inner loop of convolve_input_side (src/convolve.h:35-42) for
        row i. */
    method AddRow(i: nat, ghost xs: seq<real>, ghost hs: seq<real>, ghost wi: int, ghost wj: nat)
        returns (ghost wi': int, ghost wj': nat)
      requires Valid() && n == xLen && m == hLen && p == n + m - 1 && y.Length == p
      requires xs == x[..n] && hs == h[..m] && i < n && -1 <= wi < i && (wi >= 0 ==> wj < m)
      requires forall t :: 0 <= t < p ==> y[t] == PartialConv(xs, hs, t, i)
      requires maxAbs >= dblMin && forall t :: 0 <= t < p ==> Abs(y[t]) <= maxAbs
      requires forall i', j' :: 0 <= i' < i && 0 <= j' < m ==> Abs(Observed(xs, hs, i', j')) <= maxAbs
      requires if wi < 0 then maxAbs == dblMin else maxAbs == Abs(Observed(xs, hs, wi, wj))
      modifies this`maxAbs, y
      ensures -1 <= wi' <= i && (wi' >= 0 ==> wj' < m)
      ensures forall t :: 0 <= t < p ==> y[t] == PartialConv(xs, hs, t, i + 1)
      ensures maxAbs >= dblMin && forall t :: 0 <= t < p ==> Abs(y[t]) <= maxAbs
      ensures forall i', j' :: 0 <= i' <= i && 0 <= j' < m ==> Abs(Observed(xs, hs, i', j')) <= maxAbs
      ensures if wi' < 0 then maxAbs == dblMin else maxAbs == Abs(Observed(xs, hs, wi', wj'))
    {
      wi', wj' := wi, wj;
      var j := 0;
      while j < m
        invariant 0 <= j <= m && -1 <= wi' <= i && (wi' >= 0 ==> wj' < m)
        invariant forall t :: 0 <= t < p ==> y[t] == Accumulating(xs, hs, t, i, j)
        invariant maxAbs >= dblMin && forall t :: 0 <= t < p ==> Abs(y[t]) <= maxAbs
        invariant forall i', j' :: 0 <= i' < i && 0 <= j' < m ==> Abs(Observed(xs, hs, i', j')) <= maxAbs
        invariant forall j' :: 0 <= j' < j ==> Abs(Observed(xs, hs, i, j')) <= maxAbs
        invariant if wi' < 0 then maxAbs == dblMin else maxAbs == Abs(Observed(xs, hs, wi', wj'))
      {
        wi', wj' := AddTerm(i, j, xs, hs, wi', wj');
        j := j + 1;
      }
      forall t | 0 <= t < p
        ensures y[t] == PartialConv(xs, hs, t, i + 1)
      {
        assert y[t] == Accumulating(xs, hs, t, i, m);
      }
    }

    /** convolve_input_side (src/convolve.h:27-44): Y is zeroed, then every
        X[i] * H[j] is added into Y[i + j], and max follows the absolute value
        of each updated sample.  Y ends as the convolution; max is the largest
        of DBL_MIN and the absolute values of all the partial sums observed,
        hence at least every |Y[k]|. */
    method ConvolveInputSide()
      requires Valid() && n == xLen && m == hLen && p == n + m - 1 && y.Length == p
      modifies this`maxAbs, y
      ensures y[..] == ConvSeq(x[..n], h[..m], p)
      ensures maxAbs >= dblMin
      ensures forall k :: 0 <= k < p ==> Abs(y[k]) <= maxAbs
      ensures forall i, j :: 0 <= i < n && 0 <= j < m ==> Abs(Observed(x[..n], h[..m], i, j)) <= maxAbs
      ensures maxAbs == dblMin
           || exists i, j :: 0 <= i < n && 0 <= j < m && maxAbs == Abs(Observed(x[..n], h[..m], i, j))
    {
      ghost var xs, hs := x[..n], h[..m];
      var k := 0;
      while k < p
        invariant 0 <= k <= p
        invariant forall t :: 0 <= t < k ==> y[t] == 0.0
      {
        y[k] := 0.0;
        k := k + 1;
      }
      maxAbs := dblMin;
      ghost var wi: int, wj: nat := -1, 0;
      var i := 0;
      while i < n
        invariant 0 <= i <= n && -1 <= wi < i && (wi >= 0 ==> wj < m)
        invariant xs == x[..n] && hs == h[..m]
        invariant forall t :: 0 <= t < p ==> y[t] == PartialConv(xs, hs, t, i)
        invariant maxAbs >= dblMin && forall t :: 0 <= t < p ==> Abs(y[t]) <= maxAbs
        invariant forall i', j' :: 0 <= i' < i && 0 <= j' < m ==> Abs(Observed(xs, hs, i', j')) <= maxAbs
        invariant if wi < 0 then maxAbs == dblMin else maxAbs == Abs(Observed(xs, hs, wi, wj))
      {
        wi, wj := AddRow(i, xs, hs, wi, wj);
        i := i + 1;
      }
    }

    /** The division loop of convolve (src/convolve.h:258-259). */
    method Normalise()
      requires Valid() && 0 <= p <= y.Length && maxAbs != 0.0
      modifies y
      ensures forall k :: 0 <= k < p ==> y[k] == old(y[k]) / maxAbs
      ensures forall k :: p <= k < y.Length ==> y[k] == old(y[k])
    {
      var i := 0;
      while i < p
        invariant 0 <= i <= p
        invariant forall k :: 0 <= k < i ==> y[k] == old(y[k]) / maxAbs
        invariant forall k :: i <= k < y.Length ==> y[k] == old(y[k])
      {
        y[i] := y[i] / maxAbs;
        i := i + 1;
      }
    }

    /** convolve (src/convolve.h:237-260) without the file output: allocate Y,
        convolve on the input side, normalise.  Every output sample is the
        convolution divided by max, and lies in [-1, 1]. */
    method Convolve() returns (ok: bool)
      requires Valid()
      modifies this`n, this`m, this`p, this`y, this`maxAbs
      ensures Valid() && ok == (xLen + hLen >= 1) && n == xLen && m == hLen
      ensures !ok ==> maxAbs == old(maxAbs)
      ensures ok ==> fresh(y) && y.Length == p == xLen + hLen - 1 && maxAbs >= dblMin
      ensures ok ==> forall k :: 0 <= k < p ==> y[k] == Conv(x[..xLen], h[..hLen], k) / maxAbs
      ensures ok ==> forall k :: 0 <= k < p ==> -1.0 <= y[k] <= 1.0
      ensures ok ==> forall i, j :: 0 <= i < xLen && 0 <= j < hLen ==>
                       Abs(Observed(x[..xLen], h[..hLen], i, j)) <= maxAbs
      ensures ok ==> maxAbs == dblMin
                     || exists i, j :: 0 <= i < xLen && 0 <= j < hLen
                          && maxAbs == Abs(Observed(x[..xLen], h[..hLen], i, j))
    {
      ok := Allocate();
      if !ok {
        return;
      }
      ConvolveInputSide();
      ghost var before := y[..];
      Normalise();
      forall k | 0 <= k < p
        ensures -1.0 <= y[k] <= 1.0
      {
        InUnitRange(before[k], maxAbs);
      }
    }

    /** The maximum scan after the overlap-add convolver
        (src/convolve.h:216-221). */
    method ScanOutput()
      requires Valid() && 0 <= p <= y.Length
      modifies this`maxAbs
      ensures maxAbs == ScanMax(dblMin, y[..p])
    {
      maxAbs := dblMin;
      var i := 0;
      while i < p
        invariant 0 <= i <= p
        invariant maxAbs == ScanMax(dblMin, y[..i])
      {
        assert y[..i + 1][..i] == y[..i];
        var absVal := Abs(y[i]);
        if absVal > maxAbs {
          maxAbs := absVal;
        }
        i := i + 1;
      }
      assert y[..p] == y[..i];
    }

    /** The padding of src/convolve.h:101-127: X grows to the least multiple
        of segment_len that holds it, the added samples are zero, and P and Y
        grow by the same amount.  X.length itself is not updated. */
    method PadInput(segLen: nat) returns (numPoints: nat)
      requires Valid() && segLen >= 1 && x.Length == xLen && 0 <= p == y.Length
      modifies this`x, this`p, this`y
      ensures Valid() && numPoints == PaddedLen(xLen, segLen) == x.Length
      ensures x[..] == Padded(old(x[..]), segLen)
      ensures p == old(p) + (numPoints - xLen) && y.Length == p
      ensures numPoints == xLen ==> x == old(x) && y == old(y)
      ensures numPoints != xLen ==> fresh(x) && fresh(y)
    {
      numPoints := xLen;
      if numPoints % segLen != 0 {
        var newLen := (numPoints / segLen + 1) * segLen;
        var diff := newLen - numPoints;
        numPoints := numPoints + diff;
        p := p + diff;
        ghost var xs := x[..];
        x := Realloc(x, numPoints);
        var i := numPoints - diff;
        while i < numPoints
          invariant xLen <= i <= numPoints && x.Length == numPoints && fresh(x)
          invariant p == old(p) + diff && y == old(y)
          invariant forall t :: 0 <= t < xLen ==> x[t] == xs[t]
          invariant forall t :: xLen <= t < i ==> x[t] == 0.0
        {
          x[i] := 0.0;
          i := i + 1;
        }
        y := Realloc(y, p);
        assert x[..] == Padded(xs, segLen);
      }
    }

    /** convolve_overlap_add_fft (src/convolve.h:86-230).  With M = 0 the
        overlap buffer's size is negative and the function returns after the
        padding (ok == false).  Otherwise Y[0..P) is the output of the
        segment run on the padded X, written without zeroing Y first, and max
        is the scan of Y seeded with DBL_MIN. */
    method OverlapAddFft(sine: real -> real) returns (ok: bool)
      requires Valid() && x.Length == xLen && h.Length == hLen && p == xLen + hLen - 1 == y.Length
      modifies this`x, this`p, this`y, this`maxAbs, y
      ensures Valid() && ok == (hLen >= 1)
      ensures var segLen := FftSize(hLen) + 1 - hLen;
              x[..] == Padded(old(x[..]), segLen)
              && p == PaddedLen(xLen, segLen) + hLen - 1 && y.Length == p
      ensures ok ==> y[..] == OverlapAddOutput(x[..], h[..], sine) && maxAbs == ScanMax(dblMin, y[..])
      ensures !ok ==> maxAbs == old(maxAbs)
    {
      var filterLen := hLen;
      var fftLen := FftLength(filterLen);
      var segLen := fftLen + 1 - filterLen;
      var numPoints := PadInput(segLen);
      ok := filterLen >= 1;
      if ok {
        SegmentsOnPadded(fftLen, segLen, numPoints, sine);
      }
    }

    /** The rest of convolve_overlap_add_fft once X is padded
        (src/convolve.h:130-221): the segments and the flush, then the
        maximum scan. */
    method SegmentsOnPadded(fftLen: nat, segLen: nat, numPoints: nat, sine: real -> real)
      requires Valid() && hLen >= 1 && h.Length == hLen && fftLen == FftSize(hLen) && segLen == fftLen + 1 - hLen
      requires numPoints == x.Length && numPoints % segLen == 0 && p == numPoints + hLen - 1 == y.Length
      modifies this`maxAbs, y
      ensures x[..] == old(x[..])
      ensures y[..] == OverlapAddOutput(x[..], h[..], sine) && maxAbs == ScanMax(dblMin, y[..])
    {
      SegmentRun(x, h, y, fftLen, segLen, numPoints, sine);
      ScanOutput();
      assert y[..p] == y[..];
    }
  }

  /** A silent recording convolves to silence, so max stays at DBL_MIN and
      the division never divides by zero. */
  lemma ConvOfSilence(x: seq<real>, h: seq<real>, p: nat)
    requires forall t :: 0 <= t < |x| ==> x[t] == 0.0
    ensures ConvSeq(x, h, p) == Zeros(p)
  {
    forall k | 0 <= k < p
      ensures ConvSeq(x, h, p)[k] == 0.0
    {
      PartialConvOfSilence(x, h, k, |x|);
    }
  }

  /** The largest |Y[k]| is bounded by max, and every output sample is
      bounded by the maximum of the observed partial sums (each final Y[k] is
      one of them). */
  lemma FinalSampleObserved(x: seq<real>, h: seq<real>, k: nat)
    requires |x| >= 1 && |h| >= 1 && k < |x| + |h| - 1
    ensures var i := if k < |x| then k else |x| - 1;
            k - i < |h| && Conv(x, h, k) == Observed(x, h, i, k - i)
  {
    var i := if k < |x| then k else |x| - 1;
    TailAdds(x, h, k, i + 1);
  }

  /** Terms past the last i' with k - i' >= 0 add nothing. */
  lemma {:induction false} TailAdds(x: seq<real>, h: seq<real>, k: int, i: nat)
    requires 1 <= i <= |x| && (k < i || i == |x|)
    ensures PartialConv(x, h, k, |x|) == PartialConv(x, h, k, i)
    decreases |x| - i
  {
    if i < |x| {
      TailAdds(x, h, k, i + 1);
    }
  }
}
