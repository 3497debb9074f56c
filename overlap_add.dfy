/** The helpers and the segment bookkeeping of the overlap-add FFT convolver
    of src/convolve.h:46-230 (the same text as
    src/alg-opt/convolve_after.h:1-186).  XX holds 2 * fft_len reals, REX, IMX,
    REFR and IMFR hold fft_len / 2, OLAP holds M - 1.  The model keeps the
    code's raw indices: slide_window puts sample i at XX[i] (not at the real
    part XX[2i] of complex number i), and post_process_fft splits and clears
    only XX[0..fft_len). */
module OverlapAdd {
  import opened CArith
  import opened Fft

  // ---------------------------------------------------------------------------
  // Specification functions
  // ---------------------------------------------------------------------------

  function Zeros(n: nat): (z: seq<real>)
    ensures |z| == n && forall k :: 0 <= k < n ==> z[k] == 0.0
  {
    seq(n, _ => 0.0)
  }

  /** The XX that slide_window leaves: X[w + i] below segLen, zero above. */
  function Window(x: seq<real>, xxLen: nat, segLen: nat, w: nat): (r: seq<real>)
    requires w + Min(segLen, xxLen) <= |x|
    ensures |r| == xxLen
  {
    seq(xxLen, i requires 0 <= i < xxLen => if i < segLen then x[w + i] else 0.0)
  }

  /** The real parts REX[k] = XX[2k] that post_process_fft extracts. */
  function PostRe(xx: seq<real>, fftLen: nat): (re: seq<real>)
    requires 2 * (fftLen / 2) <= |xx|
    ensures |re| == fftLen / 2
  {
    seq(fftLen / 2, k requires 0 <= k < fftLen / 2 => xx[2 * k])
  }

  /** The imaginary parts IMX[k] = XX[2k + 1] that post_process_fft extracts. */
  function PostIm(xx: seq<real>, fftLen: nat): (im: seq<real>)
    requires 2 * (fftLen / 2) <= |xx|
    ensures |im| == fftLen / 2
  {
    seq(fftLen / 2, k requires 0 <= k < fftLen / 2 => xx[2 * k + 1])
  }

  /** xx with its first len entries zeroed. */
  function Cleared(xx: seq<real>, len: nat): (r: seq<real>)
    requires len <= |xx|
    ensures |r| == |xx|
  {
    seq(|xx|, t requires 0 <= t < |xx| => if t < len then 0.0 else xx[t])
  }

  /** prev with the first k entries replaced by the reals at 2q + off of xx:
      the real parts (off = 0) or imaginary parts (off = 1) of the first k
      pairs. */
  function Extracted(prev: seq<real>, xx: seq<real>, k: nat, off: nat): (r: seq<real>)
    requires off <= 1 && k <= |prev| && 2 * k <= |xx|
    ensures |r| == |prev|
  {
    seq(|prev|, q requires 0 <= q < |prev| => if q < k then xx[2 * q + off] else prev[q])
  }

  lemma ExtractedStep(prev: seq<real>, xx: seq<real>, k: nat, off: nat)
    requires off <= 1 && k < |prev| && 2 * k + 2 <= |xx|
    ensures Extracted(prev, xx, k + 1, off) == Extracted(prev, xx, k, off)[k := xx[2 * k + off]]
  {
  }

  /** Once all fft_len / 2 pairs are split, the prefix holds the parts
      post_process_fft extracts and the rest is untouched. */
  lemma ExtractedDone(prev: seq<real>, xx: seq<real>, fftLen: nat, off: nat)
    requires off <= 1 && fftLen / 2 <= |prev| && 2 * (fftLen / 2) <= |xx|
    ensures var r := Extracted(prev, xx, fftLen / 2, off);
            r[..fftLen / 2] == (if off == 0 then PostRe(xx, fftLen) else PostIm(xx, fftLen)) &&
            r[fftLen / 2..] == prev[fftLen / 2..]
  {
  }

  lemma ClearedStep(xx: seq<real>, i: nat)
    requires i + 2 <= |xx|
    ensures Cleared(xx, i + 2) == Cleared(xx, i)[i := 0.0][i + 1 := 0.0]
  {
  }

  /** xx with the pairs (re[k], im[k]), k < count, written at 2k and 2k + 1. */
  function Interleaved(xx: seq<real>, re: seq<real>, im: seq<real>, count: nat): (r: seq<real>)
    requires 2 * count <= |xx| && count <= |re| && count <= |im|
    ensures |r| == |xx|
  {
    seq(|xx|, t requires 0 <= t < |xx| =>
      if t < 2 * count then (if t % 2 == 0 then re[t / 2] else im[t / 2]) else xx[t])
  }

  /** The bins below count multiplied by the filter's response: the real parts. */
  function ProductRe(re: seq<real>, im: seq<real>, fr: seq<real>, fi: seq<real>, count: nat): (r: seq<real>)
    requires count <= |re| && count <= |im| && count <= |fr| && count <= |fi|
    ensures |r| == |re|
  {
    seq(|re|, j requires 0 <= j < |re| =>
      if j < count then Times(Complex(re[j], im[j]), Complex(fr[j], fi[j])).re else re[j])
  }

  /** The bins below count multiplied by the filter's response: the imaginary parts. */
  function ProductIm(re: seq<real>, im: seq<real>, fr: seq<real>, fi: seq<real>, count: nat): (r: seq<real>)
    requires count <= |re| && count <= |im| && count <= |fr| && count <= |fi|
    ensures |r| == |im|
  {
    seq(|im|, j requires 0 <= j < |im| =>
      if j < count then Times(Complex(re[j], im[j]), Complex(fr[j], fi[j])).im else im[j])
  }

  /** xx with the overlap of the previous segment added to its first entries. */
  function WithOverlap(xx: seq<real>, olap: seq<real>): (r: seq<real>)
    requires |olap| <= |xx|
    ensures |r| == |xx|
  {
    seq(|xx|, t requires 0 <= t < |xx| => if t < |olap| then xx[t] + olap[t] else xx[t])
  }

  /** The smallest power of two that is at least 2 and at least filterLen,
      searched upwards from f. */
  function FftSizeFrom(f: nat, filterLen: int): (r: nat)
    requires IsPow2(f) && f >= 2
    ensures IsPow2(r) && r >= f && r >= filterLen && (r == f || r / 2 < filterLen)
    decreases if filterLen > f then filterLen - f else 0
  {
    if f < filterLen then
      IsPow2Double(f);
      FftSizeFrom(2 * f, filterLen)
    else f
  }

  /** fft_len of src/convolve.h:93-95. */
  function FftSize(filterLen: int): (f: nat)
    ensures IsPow2(f) && f >= 2 && f >= filterLen && (f == 2 || f / 2 < filterLen)
  {
    FftSizeFrom(2, filterLen)
  }

  /** fft_len is the least power of two that is at least 2 and at least M. */
  lemma FftSizeLeast(filterLen: int, q: int)
    requires IsPow2(q) && q >= 2 && q >= filterLen
    ensures q >= FftSize(filterLen)
  {
    var f := FftSize(filterLen);
    if q < f {
      Pow2Gap(f, q);
    }
  }

  /** The length num_points is padded to (src/convolve.h:101-106): a
      multiple of segment_len, and less than segment_len above num_points. */
  function PaddedLen(num: nat, segLen: nat): (r: nat)
    requires segLen >= 1
    ensures r % segLen == 0 && num <= r < num + segLen
  {
    var d, rem := num / segLen, num % segLen;
    assert num == segLen * d + rem;
    if rem != 0 then
      assert (d + 1) * segLen == segLen * d + segLen;
      DivModUnique(segLen * d + segLen, segLen, d + 1, 0);
      (num / segLen + 1) * segLen
    else num
  }

  /** The padded length is the least multiple of segment_len that is at
      least the original length. */
  lemma PaddedLenLeast(num: nat, segLen: nat, q: nat)
    requires segLen >= 1 && q * segLen >= num
    ensures q * segLen >= PaddedLen(num, segLen)
  {
    var p := PaddedLen(num, segLen);
    var k := p / segLen;
    assert p == segLen * k;
    if q >= k {
      MulMonotone(segLen, k, q);
    } else {
      MulMonotone(segLen, q + 1, k);
      assert false;
    }
  }

  /** X zero-padded to the next multiple of segment_len
      (src/convolve.h:101-118): the original samples, then zeros. */
  function Padded(xs: seq<real>, segLen: nat): (r: seq<real>)
    requires segLen >= 1
    ensures |r| == PaddedLen(|xs|, segLen) && |r| % segLen == 0
    ensures r[..|xs|] == xs && forall t :: |xs| <= t < |r| ==> r[t] == 0.0
  {
    xs + Zeros(PaddedLen(|xs|, segLen) - |xs|)
  }

  /** The sizes and the filter spectrum a run works with. */
  datatype Kernel = Kernel(fftLen: nat, segLen: nat, refr: seq<real>, imfr: seq<real>, sine: real -> real)

  predicate KernelOk(k: Kernel)
  {
    IsPow2(k.fftLen) && k.fftLen >= 2 && 1 <= k.segLen <= k.fftLen
    && |k.refr| == k.fftLen / 2 && |k.imfr| == k.fftLen / 2
  }

  /** The filter spectrum: H zero-padded to 2 * fft_len reals, transformed,
      and split by post_process_fft (src/convolve.h:157-169). */
  function KernelOf(h: seq<real>, sine: real -> real): (k: Kernel)
    requires |h| >= 1
    ensures KernelOk(k) && k.fftLen == FftSize(|h|) && k.segLen == FftSize(|h|) + 1 - |h|
  {
    var f := FftSize(|h|);
    var spectrum := Four1Spec(Window(h, 2 * f, |h|, 0), f, 1, sine);
    Kernel(f, f + 1 - |h|, PostRe(spectrum, f), PostIm(spectrum, f), sine)
  }

  /** XX at the end of a segment's processing, once the overlap is added
      (src/convolve.h:178-198): the window, its transform, the per-bin
      product with the filter's response, the inverse transform. */
  function SegmentSignal(x: seq<real>, w: nat, k: Kernel, olap: seq<real>): (r: seq<real>)
    requires KernelOk(k) && w + k.segLen <= |x| && |olap| == k.fftLen - k.segLen
    ensures |r| == 2 * k.fftLen
  {
    var f := k.fftLen;
    var half := f / 2;
    var spectrum := Four1Spec(Window(x, 2 * f, k.segLen, w), f, 1, k.sine);
    var re, im := PostRe(spectrum, f), PostIm(spectrum, f);
    var product := Interleaved(Cleared(spectrum, 2 * half),
                               ProductRe(re, im, k.refr, k.imfr, half),
                               ProductIm(re, im, k.refr, k.imfr, half), half);
    WithOverlap(Four1Spec(product, f, -1, k.sine), olap)
  }

  /** What a run carries from segment to segment: OLAP and the output so far. */
  datatype Carry = Carry(olap: seq<real>, out: seq<real>)

  /** The state after the first count segments. */
  function Run(x: seq<real>, k: Kernel, count: nat): (c: Carry)
    requires KernelOk(k) && count * k.segLen <= |x|
    ensures |c.olap| == k.fftLen - k.segLen && |c.out| == count * k.segLen
  {
    if count == 0 then Carry(Zeros(k.fftLen - k.segLen), [])
    else
      assert (count - 1) * k.segLen + k.segLen == count * k.segLen;
      var prev := Run(x, k, count - 1);
      var sig := SegmentSignal(x, |prev.out|, k, prev.olap);
      Carry(sig[k.segLen..k.fftLen], prev.out + sig[..k.segLen])
  }

  /** The output of the overlap-add convolver on the padded input x: the
      segments' outputs followed by the final overlap. */
  function OverlapAddOutput(x: seq<real>, h: seq<real>, sine: real -> real): (y: seq<real>)
    requires |h| >= 1 && |x| % (FftSize(|h|) + 1 - |h|) == 0
    ensures |y| == |x| + |h| - 1
  {
    var k := KernelOf(h, sine);
    var count := |x| / k.segLen;
    assert count * k.segLen == |x|;
    var last := Run(x, k, count);
    last.out + last.olap
  }

  // ---------------------------------------------------------------------------
  // Properties of the specification
  // ---------------------------------------------------------------------------

  /** Splitting into REX and IMX and then interleaving them back restores
      XX[0..fft_len): post_process_fft followed by pre_process_fft with
      spectra_len = fft_len / 2. */
  lemma PostThenPre(xx: seq<real>, fftLen: nat)
    requires 2 * (fftLen / 2) <= |xx|
    ensures Interleaved(Cleared(xx, 2 * (fftLen / 2)), PostRe(xx, fftLen), PostIm(xx, fftLen), fftLen / 2) == xx
  {
    var c := fftLen / 2;
    var r := Interleaved(Cleared(xx, 2 * c), PostRe(xx, fftLen), PostIm(xx, fftLen), c);
    forall t | 0 <= t < |xx|
      ensures r[t] == xx[t]
    {
      if t < 2 * c {
        assert t == 2 * (t / 2) + t % 2;
      }
    }
  }

  /** Interleaving and splitting again gives back the spectra. */
  lemma PreThenPost(xx: seq<real>, re: seq<real>, im: seq<real>, fftLen: nat)
    requires 2 * (fftLen / 2) <= |xx| && |re| == fftLen / 2 && |im| == fftLen / 2
    ensures PostRe(Interleaved(xx, re, im, fftLen / 2), fftLen) == re
    ensures PostIm(Interleaved(xx, re, im, fftLen / 2), fftLen) == im
  {
    var r := Interleaved(xx, re, im, fftLen / 2);
    forall k | 0 <= k < fftLen / 2
      ensures PostRe(r, fftLen)[k] == re[k] && PostIm(r, fftLen)[k] == im[k]
    {
      assert (2 * k) / 2 == k && (2 * k + 1) / 2 == k;
    }
  }

  // ---------------------------------------------------------------------------
  // The helpers
  // ---------------------------------------------------------------------------

  /** slide_window (src/convolve.h:51-56), with the global X passed as x. */
  method SlideWindow(x: array<real>, xxLen: nat, segLen: nat, w: nat, xx: array<real>) returns (w': nat)
    requires xxLen <= xx.Length && w + Min(segLen, xxLen) <= x.Length && x != xx
    modifies xx
    ensures xx[..xxLen] == Window(x[..], xxLen, segLen, w)
    ensures xx[xxLen..] == old(xx[xxLen..])
    ensures w' == w + segLen
  {
    var i := 0;
    while i < xxLen
      invariant 0 <= i <= xxLen
      invariant forall t :: 0 <= t < i ==> xx[t] == if t < segLen then x[w + t] else 0.0
      invariant forall t :: i <= t < xx.Length ==> xx[t] == old(xx[t])
    {
      xx[i] := if i < segLen then x[w + i] else 0.0;
      i := i + 1;
    }
    w' := w + segLen;
  }

  /** pre_process_fft (src/convolve.h:62-67): the pairs (REX[i], IMX[i])
      written back into XX[2i], XX[2i + 1] for i < spectra_len. */
  method PreProcess(spectraLen: nat, xx: array<real>, rex: array<real>, imx: array<real>)
    requires 2 * spectraLen <= xx.Length && spectraLen <= rex.Length && spectraLen <= imx.Length
    requires xx != rex && xx != imx
    modifies xx
    ensures xx[..] == Interleaved(old(xx[..]), rex[..], imx[..], spectraLen)
  {
    var i := 0;
    while i < spectraLen
      invariant 0 <= i <= spectraLen
      invariant forall q :: 0 <= q < i ==> xx[2 * q] == rex[q] && xx[2 * q + 1] == imx[q]
      invariant forall t :: 2 * i <= t < xx.Length ==> xx[t] == old(xx[t])
    {
      xx[i * 2] := rex[i];
      xx[i * 2 + 1] := imx[i];
      i := i + 1;
    }
    ghost var r := Interleaved(old(xx[..]), rex[..], imx[..], spectraLen);
    forall t | 0 <= t < xx.Length
      ensures xx[t] == r[t]
    {
      if t < 2 * spectraLen {
        assert t == 2 * (t / 2) + t % 2;
      }
    }
  }

  /** post_process_fft (src/convolve.h:72-81): for the even i < fft_len - 1,
      XX[i] and XX[i + 1] go to REX[i / 2] and IMX[i / 2] and are zeroed; so
      k < fft_len / 2 pairs are split, and XX from 2 * (fft_len / 2) on is
      left alone. */
  method PostProcess(fftLen: nat, xx: array<real>, rex: array<real>, imx: array<real>)
    requires 2 * (fftLen / 2) <= xx.Length && fftLen / 2 <= rex.Length && fftLen / 2 <= imx.Length
    requires xx != rex && xx != imx && rex != imx
    modifies xx, rex, imx
    ensures rex[..fftLen / 2] == PostRe(old(xx[..]), fftLen) && rex[fftLen / 2..] == old(rex[fftLen / 2..])
    ensures imx[..fftLen / 2] == PostIm(old(xx[..]), fftLen) && imx[fftLen / 2..] == old(imx[fftLen / 2..])
    ensures xx[..] == Cleared(old(xx[..]), 2 * (fftLen / 2))
  {
    ghost var x0, re0, im0 := xx[..], rex[..], imx[..];
    SplitPairs(fftLen, xx, rex, imx);
    ExtractedDone(re0, x0, fftLen, 0);
    ExtractedDone(im0, x0, fftLen, 1);
  }

  /** The loop of post_process_fft (src/convolve.h:73-80), pair by pair. */
  method SplitPairs(fftLen: nat, xx: array<real>, rex: array<real>, imx: array<real>)
    requires 2 * (fftLen / 2) <= xx.Length && fftLen / 2 <= rex.Length && fftLen / 2 <= imx.Length
    requires xx != rex && xx != imx && rex != imx
    modifies xx, rex, imx
    ensures rex[..] == Extracted(old(rex[..]), old(xx[..]), fftLen / 2, 0)
    ensures imx[..] == Extracted(old(imx[..]), old(xx[..]), fftLen / 2, 1)
    ensures xx[..] == Cleared(old(xx[..]), 2 * (fftLen / 2))
  {
    ghost var x0, re0, im0 := xx[..], rex[..], imx[..];
    var i := 0;
    ghost var k := 0;
    while i < fftLen - 1
      invariant i == 2 * k && 0 <= k <= fftLen / 2
      invariant rex[..] == Extracted(re0, x0, k, 0) && imx[..] == Extracted(im0, x0, k, 1)
      invariant xx[..] == Cleared(x0, i)
    {
      SplitPair(xx, rex, imx, i, k);
      ExtractedStep(re0, x0, k, 0);
      ExtractedStep(im0, x0, k, 1);
      ClearedStep(x0, i);
      i := i + 2;
      k := k + 1;
    }
  }

  /** One turn of the loop of post_process_fft, on the pair at i. */
  method SplitPair(xx: array<real>, rex: array<real>, imx: array<real>, i: nat, ghost k: nat)
    requires i == 2 * k && i + 1 < xx.Length && k < rex.Length && k < imx.Length
    requires xx != rex && xx != imx && rex != imx
    modifies xx, rex, imx
    ensures rex[..] == old(rex[..])[k := old(xx[i])] && imx[..] == old(imx[..])[k := old(xx[i + 1])]
    ensures xx[..] == old(xx[..])[i := 0.0][i + 1 := 0.0]
  {
    rex[i / 2] := xx[i];
    imx[i / 2] := xx[i + 1];
    xx[i] := 0.0;
    xx[i + 1] := 0.0;
  }

  /** The per-bin multiply of src/convolve.h:186-190: bin j becomes the
      complex product of (REX[j], IMX[j]) and (REFR[j], IMFR[j]); temp keeps
      the product's real part so that IMX[j] is computed from the old REX[j]. */
  method MultiplySpectra(spectraLen: nat, rex: array<real>, imx: array<real>, refr: array<real>, imfr: array<real>)
    requires spectraLen <= rex.Length && spectraLen <= imx.Length && spectraLen <= refr.Length && spectraLen <= imfr.Length
    requires rex != imx && rex != refr && rex != imfr && imx != refr && imx != imfr
    modifies rex, imx
    ensures rex[..] == ProductRe(old(rex[..]), old(imx[..]), refr[..], imfr[..], spectraLen)
    ensures imx[..] == ProductIm(old(rex[..]), old(imx[..]), refr[..], imfr[..], spectraLen)
  {
    var j := 0;
    while j < spectraLen
      invariant 0 <= j <= spectraLen
      invariant forall q :: 0 <= q < j ==>
        Complex(rex[q], imx[q]) == Times(Complex(old(rex[q]), old(imx[q])), Complex(refr[q], imfr[q]))
      invariant forall q :: j <= q < rex.Length ==> rex[q] == old(rex[q])
      invariant forall q :: j <= q < imx.Length ==> imx[q] == old(imx[q])
    {
      var temp := rex[j] * refr[j] - imx[j] * imfr[j];
      imx[j] := rex[j] * imfr[j] + imx[j] * refr[j];
      rex[j] := temp;
      j := j + 1;
    }
  }

  /** Zeroing the first len entries (src/convolve.h:152-153). */
  method ZeroFill(a: array<real>, len: nat)
    requires len <= a.Length
    modifies a
    ensures a[..] == Cleared(old(a[..]), len)
  {
    var i := 0;
    while i < len
      invariant 0 <= i <= len
      invariant forall t :: 0 <= t < i ==> a[t] == 0.0
      invariant forall t :: i <= t < a.Length ==> a[t] == old(a[t])
    {
      a[i] := 0.0;
      i := i + 1;
    }
  }

  /** Saving the filter's spectrum (src/convolve.h:166-169). */
  method CopySpectra(spectraLen: nat, rex: array<real>, imx: array<real>, refr: array<real>, imfr: array<real>)
    requires spectraLen <= rex.Length && spectraLen <= imx.Length && spectraLen <= refr.Length && spectraLen <= imfr.Length
    requires refr != rex && refr != imx && imfr != rex && imfr != imx && refr != imfr
    modifies refr, imfr
    ensures refr[..spectraLen] == rex[..spectraLen] && refr[spectraLen..] == old(refr[spectraLen..])
    ensures imfr[..spectraLen] == imx[..spectraLen] && imfr[spectraLen..] == old(imfr[spectraLen..])
  {
    var i := 0;
    while i < spectraLen
      invariant 0 <= i <= spectraLen
      invariant forall q :: 0 <= q < i ==> refr[q] == rex[q] && imfr[q] == imx[q]
      invariant forall q :: i <= q < refr.Length ==> refr[q] == old(refr[q])
      invariant forall q :: i <= q < imfr.Length ==> imfr[q] == old(imfr[q])
    {
      refr[i] := rex[i];
      imfr[i] := imx[i];
      i := i + 1;
    }
  }

  /** Adding the previous overlap into XX (src/convolve.h:197-198). */
  method AddOverlap(olapLen: nat, xx: array<real>, olap: array<real>)
    requires olapLen == olap.Length && olapLen <= xx.Length && xx != olap
    modifies xx
    ensures xx[..] == WithOverlap(old(xx[..]), olap[..])
  {
    var j := 0;
    while j < olapLen
      invariant 0 <= j <= olapLen
      invariant forall t :: 0 <= t < j ==> xx[t] == old(xx[t]) + olap[t]
      invariant forall t :: j <= t < xx.Length ==> xx[t] == old(xx[t])
    {
      xx[j] := xx[j] + olap[j];
      j := j + 1;
    }
  }

  /** Saving XX[segment_len..fft_len) as the next overlap
      (src/convolve.h:201-202). */
  method SaveOverlap(segLen: nat, fftLen: nat, xx: array<real>, olap: array<real>)
    requires segLen <= fftLen <= xx.Length && olap.Length == fftLen - segLen && xx != olap
    modifies olap
    ensures olap[..] == xx[segLen..fftLen]
  {
    var j := segLen;
    while j < fftLen
      invariant segLen <= j <= fftLen
      invariant forall t :: segLen <= t < j ==> olap[t - segLen] == xx[t]
    {
      olap[j - segLen] := xx[j];
      j := j + 1;
    }
  }

  /** Copying len samples of a into Y from out on: the segment output of
      src/convolve.h:206-207 and the final flush of 212-213. */
  method Emit(y: array<real>, out: nat, a: array<real>, len: nat)
    requires len <= a.Length && out + len <= y.Length && y != a
    modifies y
    ensures y[..] == old(y[..out]) + a[..len] + old(y[out + len..])
  {
    var j := 0;
    while j < len
      invariant 0 <= j <= len
      invariant forall t :: 0 <= t < j ==> y[out + t] == a[t]
      invariant forall t :: 0 <= t < y.Length && !(out <= t < out + j) ==> y[t] == old(y[t])
    {
      y[out + j] := a[j];
      j := j + 1;
    }
    ghost var r := old(y[..out]) + a[..len] + old(y[out + len..]);
    forall t | 0 <= t < y.Length
      ensures y[t] == r[t]
    {
      if out <= t < out + len {
        assert y[out + (t - out)] == a[t - out];
      }
    }
  }

  /** The fft_len loop of src/convolve.h:93-95. */
  method FftLength(filterLen: int) returns (fftLen: nat)
    ensures fftLen == FftSize(filterLen)
  {
    fftLen := 2;
    while fftLen < filterLen
      invariant IsPow2(fftLen) && fftLen >= 2 && FftSizeFrom(fftLen, filterLen) == FftSize(filterLen)
      decreases filterLen - fftLen
    {
      IsPow2Double(fftLen);
      fftLen := fftLen * 2;
    }
  }

  /** The arrays of a run do not overlap. */
  ghost predicate Separate(x: array<real>, y: array<real>, xx: array<real>, rex: array<real>, imx: array<real>,
                           refr: array<real>, imfr: array<real>, olap: array<real>)
  {
    x != xx && x != rex && x != imx && x != olap && x != y
    && y != xx && y != rex && y != imx && y != refr && y != imfr && y != olap
    && xx != rex && xx != imx && xx != refr && xx != imfr && xx != olap
    && rex != imx && rex != refr && rex != imfr && rex != olap
    && imx != refr && imx != imfr && imx != olap
    && refr != imfr && refr != olap && imfr != olap
  }

  /** The sizes of the arrays of a run (src/convolve.h:133-143). */
  ghost predicate Sized(k: Kernel, xx: array<real>, rex: array<real>, imx: array<real>,
                        refr: array<real>, imfr: array<real>, olap: array<real>)
  {
    KernelOk(k) && xx.Length == 2 * k.fftLen
    && rex.Length == k.fftLen / 2 && imx.Length == k.fftLen / 2
    && refr.Length == k.fftLen / 2 && imfr.Length == k.fftLen / 2
    && olap.Length == k.fftLen - k.segLen
  }

  /** The filter's spectrum (src/convolve.h:157-169): H zero-padded into XX
      (the loop at 157-158 is slide_window's loop with H for X and window 0),
      transformed, split, and saved in REFR and IMFR. */
  method FilterResponse(h: array<real>, hLen: nat, xx: array<real>, rex: array<real>, imx: array<real>,
                        refr: array<real>, imfr: array<real>, xxLen: nat, fftLen: nat, spectraLen: nat,
                        sine: real -> real, ghost k: Kernel)
    requires hLen == h.Length >= 1 && k == KernelOf(h[..], sine)
    requires xxLen == 2 * fftLen == xx.Length && fftLen == k.fftLen && spectraLen == fftLen / 2
    requires rex.Length == imx.Length == refr.Length == imfr.Length == spectraLen
    requires h != xx && xx != rex && xx != imx && rex != imx
    requires refr != rex && refr != imx && imfr != rex && imfr != imx && refr != imfr && refr != xx && imfr != xx
    modifies xx, rex, imx, refr, imfr
    ensures refr[..] == k.refr && imfr[..] == k.imfr
  {
    var unused := SlideWindow(h, xxLen, hLen, 0, xx);
    assert xx[..] == xx[..xxLen];
    Four1(xx, fftLen, 1, sine);
    PostProcess(fftLen, xx, rex, imx);
    assert rex[..] == rex[..spectraLen] && imx[..] == imx[..spectraLen];
    CopySpectra(spectraLen, rex, imx, refr, imfr);
    assert refr[..] == refr[..spectraLen] && imfr[..] == imfr[..spectraLen];
  }

  /** One pass of the segment loop (src/convolve.h:178-208): the window at
      w is transformed, multiplied by the filter's response, transformed
      back and overlapped; its first segment_len samples go to Y[out..] and
      the rest becomes the next overlap. */
  method ProcessSegment(x: array<real>, y: array<real>, xx: array<real>, rex: array<real>, imx: array<real>,
                        refr: array<real>, imfr: array<real>, olap: array<real>,
                        xxLen: nat, segLen: nat, fftLen: nat, spectraLen: nat, olapLen: nat,
                        w: nat, out: nat, sine: real -> real, ghost k: Kernel) returns (w': nat)
    requires Sized(k, xx, rex, imx, refr, imfr, olap) && Separate(x, y, xx, rex, imx, refr, imfr, olap)
    requires k.fftLen == fftLen && k.segLen == segLen && k.sine == sine
    requires xxLen == 2 * fftLen && spectraLen == fftLen / 2 && olapLen == fftLen - segLen
    requires refr[..] == k.refr && imfr[..] == k.imfr
    requires w + segLen <= x.Length && out + segLen <= y.Length
    modifies xx, rex, imx, olap, y
    ensures var sig := SegmentSignal(x[..], w, k, old(olap[..]));
            olap[..] == sig[segLen..fftLen] && y[..] == old(y[..out]) + sig[..segLen] + old(y[out + segLen..])
    ensures w' == w + segLen
  {
    ghost var xs, o := x[..], olap[..];
    w' := SlideWindow(x, xxLen, segLen, w, xx);
    assert xx[..] == xx[..xxLen];
    Four1(xx, fftLen, 1, sine);
    ghost var spectrum := xx[..];
    PostProcess(fftLen, xx, rex, imx);
    assert rex[..] == rex[..spectraLen] && imx[..] == imx[..spectraLen];
    MultiplySpectra(spectraLen, rex, imx, refr, imfr);
    PreProcess(spectraLen, xx, rex, imx);
    Four1(xx, fftLen, -1, sine);
    AddOverlap(olapLen, xx, olap);
    assert xx[..] == SegmentSignal(xs, w, k, o);
    SaveOverlap(segLen, fftLen, xx, olap);
    Emit(y, out, xx, segLen);
  }

  /** Processing segment i extends the run by one segment. */
  lemma RunExtends(xs: seq<real>, k: Kernel, i: nat, before: seq<real>, after: seq<real>,
                   olap: seq<real>, out: nat)
    requires KernelOk(k) && out == i * k.segLen && out + k.segLen <= |xs| && out + k.segLen <= |before|
    requires before[..out] == Run(xs, k, i).out
    requires after == before[..out] + SegmentSignal(xs, out, k, Run(xs, k, i).olap)[..k.segLen] + before[out + k.segLen..]
    requires olap == SegmentSignal(xs, out, k, Run(xs, k, i).olap)[k.segLen..k.fftLen]
    ensures (i + 1) * k.segLen == out + k.segLen
    ensures olap == Run(xs, k, i + 1).olap && after[..out + k.segLen] == Run(xs, k, i + 1).out
    ensures forall t :: out + k.segLen <= t < |after| ==> after[t] == before[t]
  {
    assert (i + 1) * k.segLen == out + k.segLen;
    var sig := SegmentSignal(xs, out, k, Run(xs, k, i).olap);
    assert after[..out + k.segLen] == before[..out] + sig[..k.segLen];
  }

  /** A run starts with a zero overlap and no output. */
  lemma RunStart(xs: seq<real>, k: Kernel)
    requires KernelOk(k)
    ensures Run(xs, k, 0) == Carry(Zeros(k.fftLen - k.segLen), [])
  {
  }

  /** One pass of the segment loop, stated against Run: after segment i, OLAP
      and Y[0..(i + 1) * segment_len) are those of the run of i + 1 segments. */
  method SegmentStep(x: array<real>, y: array<real>, xx: array<real>, rex: array<real>, imx: array<real>,
                     refr: array<real>, imfr: array<real>, olap: array<real>,
                     xxLen: nat, segLen: nat, fftLen: nat, spectraLen: nat, olapLen: nat,
                     i: nat, out: nat, sine: real -> real, ghost k: Kernel) returns (w': nat)
    requires Sized(k, xx, rex, imx, refr, imfr, olap) && Separate(x, y, xx, rex, imx, refr, imfr, olap)
    requires k.fftLen == fftLen && k.segLen == segLen && k.sine == sine
    requires xxLen == 2 * fftLen && spectraLen == fftLen / 2 && olapLen == fftLen - segLen
    requires refr[..] == k.refr && imfr[..] == k.imfr
    requires out == i * segLen && out + segLen <= x.Length && out + segLen <= y.Length
    requires olap[..] == Run(x[..], k, i).olap && y[..out] == Run(x[..], k, i).out
    modifies xx, rex, imx, olap, y
    ensures w' == out + segLen == (i + 1) * segLen
    ensures olap[..] == Run(x[..], k, i + 1).olap && y[..w'] == Run(x[..], k, i + 1).out
    ensures forall t :: w' <= t < y.Length ==> y[t] == old(y[t])
  {
    ghost var before := y[..];
    w' := ProcessSegment(x, y, xx, rex, imx, refr, imfr, olap, xxLen, segLen, fftLen,
                         spectraLen, olapLen, out, out, sine, k);
    RunExtends(x[..], k, i, before, y[..], olap[..], out);
  }

  /** The segment loop (src/convolve.h:172-209): after it, OLAP and
      Y[0..num_segments * segment_len) are those of Run, and the rest of Y
      is untouched. */
  method SegmentLoop(x: array<real>, y: array<real>, xx: array<real>, rex: array<real>, imx: array<real>,
                     refr: array<real>, imfr: array<real>, olap: array<real>,
                     xxLen: nat, segLen: nat, fftLen: nat, spectraLen: nat, olapLen: nat,
                     numSegments: nat, sine: real -> real, ghost k: Kernel) returns (out: nat)
    requires Sized(k, xx, rex, imx, refr, imfr, olap) && Separate(x, y, xx, rex, imx, refr, imfr, olap)
    requires k.fftLen == fftLen && k.segLen == segLen && k.sine == sine
    requires xxLen == 2 * fftLen && spectraLen == fftLen / 2 && olapLen == fftLen - segLen
    requires refr[..] == k.refr && imfr[..] == k.imfr && olap[..] == Zeros(olapLen)
    requires numSegments * segLen <= x.Length && numSegments * segLen <= y.Length
    modifies xx, rex, imx, olap, y
    ensures out == numSegments * segLen
    ensures olap[..] == Run(x[..], k, numSegments).olap
    ensures y[..out] == Run(x[..], k, numSegments).out
    ensures forall t :: out <= t < y.Length ==> y[t] == old(y[t])
  {
    RunStart(x[..], k);
    var windowIdx, i := 0, 0;
    out := 0;
    while i < numSegments
      invariant 0 <= i <= numSegments && windowIdx == out == i * segLen
      invariant out <= numSegments * segLen
      invariant refr[..] == k.refr && imfr[..] == k.imfr
      invariant olap[..] == Run(x[..], k, i).olap
      invariant y[..out] == Run(x[..], k, i).out
      invariant forall t :: out <= t < y.Length ==> y[t] == old(y[t])
    {
      NextBlockFits(i, numSegments, segLen);
      windowIdx := SegmentStep(x, y, xx, rex, imx, refr, imfr, olap, xxLen, segLen, fftLen,
                               spectraLen, olapLen, i, out, sine, k);
      out := windowIdx;
      i := i + 1;
    }
  }

  /** The buffers, the filter's spectrum, the segment loop and the final
      flush of convolve_overlap_add_fft (src/convolve.h:130-213), on an X
      already padded to a multiple of segment_len: Y[0..P) is written with the
      output of the run, P = num_points + M - 1. */
  method SegmentRun(x: array<real>, h: array<real>, y: array<real>, fftLen: nat, segLen: nat, numPoints: nat,
                    sine: real -> real)
    requires h.Length >= 1 && fftLen == FftSize(h.Length) && segLen == fftLen + 1 - h.Length
    requires numPoints == x.Length && numPoints % segLen == 0 && y.Length == numPoints + h.Length - 1
    requires x != y && h != y
    modifies y
    ensures y[..] == OverlapAddOutput(x[..], h[..], sine)
  {
    var filterLen := h.Length;
    var numSegments := numPoints / segLen;
    DivExact(numPoints, segLen);
    ghost var k := KernelOf(h[..], sine);
    var xxLen, spectraLen, olapLen := fftLen * 2, fftLen / 2, filterLen - 1;
    var xx := new real[xxLen];
    var rex, imx := new real[spectraLen], new real[spectraLen];
    var refr, imfr := new real[spectraLen], new real[spectraLen];
    var olap := new real[olapLen];
    ZeroFill(olap, olapLen);
    FilterResponse(h, filterLen, xx, rex, imx, refr, imfr, xxLen, fftLen, spectraLen, sine, k);
    var out := SegmentLoop(x, y, xx, rex, imx, refr, imfr, olap, xxLen, segLen, fftLen,
                           spectraLen, olapLen, numSegments, sine, k);
    Flush(x[..], h[..], y, out, olap, sine, k);
  }

  /** The final flush (src/convolve.h:212-213): the overlap left by the last
      segment fills Y from the end of the last segment's output, which
      completes the overlap-add output. */
  method Flush(ghost xs: seq<real>, ghost hs: seq<real>, y: array<real>, out: nat, olap: array<real>,
               sine: real -> real, ghost k: Kernel)
    requires |hs| >= 1 && k == KernelOf(hs, sine) && |xs| % k.segLen == 0 && out == |xs|
    requires olap.Length == |hs| - 1 && y.Length == |xs| + |hs| - 1 && y != olap
    requires y[..out] == Run(xs, k, |xs| / k.segLen).out && olap[..] == Run(xs, k, |xs| / k.segLen).olap
    modifies y
    ensures y[..] == OverlapAddOutput(xs, hs, sine)
  {
    ghost var done := y[..out];
    Emit(y, out, olap, olap.Length);
    assert y[..] == done + olap[..] + [];
  }
}
