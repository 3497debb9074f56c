/** The hand-tuned rewrites of src/tuning/tune1.c .. tune5.c.  Each one
    replaces a helper of the overlap-add convolver; each is specified by the
    same functions as the helper it replaces, so that equal postconditions
    state the equivalence.  The one that is not equivalent, the stride-2
    slide_window of tune2.c, is specified as written and compared with the
    plain window. */
module Tuning {
  import opened CArith
  import opened Fft
  import opened OverlapAdd
  import opened Convolve

  // ---------------------------------------------------------------------------
  // tune1.c: the index-cached pre_process_fft and post_process_fft
  // ---------------------------------------------------------------------------

  /** pre_process_fft with idx = i * 2 cached (src/tuning/tune1.c:5-12): the
      same XX as the plain helper. */
  method PreProcessCached(spectraLen: nat, xx: array<real>, rex: array<real>, imx: array<real>)
    requires 2 * spectraLen <= xx.Length && spectraLen <= rex.Length && spectraLen <= imx.Length
    requires xx != rex && xx != imx
    modifies xx
    ensures xx[..] == Interleaved(old(xx[..]), rex[..], imx[..], spectraLen)
  {
    var i := 0;
    while i < spectraLen
      invariant 0 <= i <= spectraLen
      invariant forall q :: 0 <= q < i ==> xx[2 * q] == rex[q] && xx[2 * q + 1] == imx[q]
      invariant forall t :: 2 * i <= t < xx.Length ==> xx[t] == old(xx[t])
    {
      var idx := i * 2;
      xx[idx] := rex[i];
      xx[idx + 1] := imx[i];
      i := i + 1;
    }
    ghost var r := Interleaved(old(xx[..]), rex[..], imx[..], spectraLen);
    forall t | 0 <= t < xx.Length
      ensures xx[t] == r[t]
    {
      if t < 2 * spectraLen {
        assert t == 2 * (t / 2) + t % 2;
      }
    }
  }

  /** post_process_fft with idx = i / 2 cached (src/tuning/tune1.c:17-28):
      the same REX, IMX and XX as the plain helper. */
  method PostProcessCached(fftLen: nat, xx: array<real>, rex: array<real>, imx: array<real>)
    requires 2 * (fftLen / 2) <= xx.Length && fftLen / 2 <= rex.Length && fftLen / 2 <= imx.Length
    requires xx != rex && xx != imx && rex != imx
    modifies xx, rex, imx
    ensures rex[..fftLen / 2] == PostRe(old(xx[..]), fftLen) && rex[fftLen / 2..] == old(rex[fftLen / 2..])
    ensures imx[..fftLen / 2] == PostIm(old(xx[..]), fftLen) && imx[fftLen / 2..] == old(imx[fftLen / 2..])
    ensures xx[..] == Cleared(old(xx[..]), 2 * (fftLen / 2))
  {
    ghost var x0, re0, im0 := xx[..], rex[..], imx[..];
    SplitPairsCached(fftLen, xx, rex, imx);
    ExtractedDone(re0, x0, fftLen, 0);
    ExtractedDone(im0, x0, fftLen, 1);
  }

  /** The loop of src/tuning/tune1.c:19-27, with idx = i / 2. */
  method SplitPairsCached(fftLen: nat, xx: array<real>, rex: array<real>, imx: array<real>)
    requires 2 * (fftLen / 2) <= xx.Length && fftLen / 2 <= rex.Length && fftLen / 2 <= imx.Length
    requires xx != rex && xx != imx && rex != imx
    modifies xx, rex, imx
    ensures rex[..] == Extracted(old(rex[..]), old(xx[..]), fftLen / 2, 0)
    ensures imx[..] == Extracted(old(imx[..]), old(xx[..]), fftLen / 2, 1)
    ensures xx[..] == Cleared(old(xx[..]), 2 * (fftLen / 2))
  {
    ghost var x0, re0, im0 := xx[..], rex[..], imx[..];
    var i := 0;
    ghost var k := 0;
    while i < fftLen - 1
      invariant i == 2 * k && 0 <= k <= fftLen / 2
      invariant rex[..] == Extracted(re0, x0, k, 0) && imx[..] == Extracted(im0, x0, k, 1)
      invariant xx[..] == Cleared(x0, i)
    {
      SplitPairCached(xx, rex, imx, i, k);
      ExtractedStep(re0, x0, k, 0);
      ExtractedStep(im0, x0, k, 1);
      ClearedStep(x0, i);
      i := i + 2;
      k := k + 1;
    }
  }

  /** One turn of the loop of src/tuning/tune1.c:19-27, on the pair at i. */
  method SplitPairCached(xx: array<real>, rex: array<real>, imx: array<real>, i: nat, ghost k: nat)
    requires i == 2 * k && i + 1 < xx.Length && k < rex.Length && k < imx.Length
    requires xx != rex && xx != imx && rex != imx
    modifies xx, rex, imx
    ensures rex[..] == old(rex[..])[k := old(xx[i])] && imx[..] == old(imx[..])[k := old(xx[i + 1])]
    ensures xx[..] == old(xx[..])[i := 0.0][i + 1 := 0.0]
  {
    var idx := i / 2;
    rex[idx] := xx[i];
    imx[idx] := xx[i + 1];
    xx[i] := 0.0;
    xx[i + 1] := 0.0;
  }

  // ---------------------------------------------------------------------------
  // tune2.c: the stride-2 slide_window
  // ---------------------------------------------------------------------------

  /** How many samples the stride-2 loop loads: it handles the pairs at even
      i < xx_len - 1, and loads a pair only when i + 1 < segment_len. */
  function Loaded(segLen: nat, xxLen: nat): (n: nat)
    ensures n % 2 == 0 && n <= Min(segLen, xxLen) < n + 2
  {
    2 * (Min(segLen, xxLen) / 2)
  }

  /** The entries the stride-2 loop writes: the first Loaded samples of the
      window, then zeros, over the 2 * (xx_len / 2) entries its pairs cover. */
  function Stride2Window(x: seq<real>, xxLen: nat, segLen: nat, w: nat): (r: seq<real>)
    requires w + Loaded(segLen, xxLen) <= |x|
    ensures |r| == 2 * (xxLen / 2)
  {
    seq(2 * (xxLen / 2), t requires 0 <= t < 2 * (xxLen / 2) =>
      if t < Loaded(segLen, xxLen) then x[w + t] else 0.0)
  }

  /** The whole of XX after the stride-2 slide_window, where lastI is the
      value of the global i that lines 18-19 test (the loop's own i has gone
      out of scope there). */
  function Stride2Result(x: seq<real>, xx: seq<real>, xxLen: nat, segLen: nat, w: nat, lastI: int): (r: seq<real>)
    requires xxLen <= |xx| && w + Loaded(segLen, xxLen) <= |x|
    ensures |r| == |xx|
  {
    var loop := Stride2Window(x, xxLen, segLen, w);
    seq(|xx|, t requires 0 <= t < |xx| =>
      if t == lastI == xxLen - 1 then 0.0
      else if t < |loop| then loop[t]
      else xx[t])
  }

  /** slide_window of src/tuning/tune2.c:6-23 as written, with the global X
      passed as x and the global i as lastI. */
  method SlideWindowStride2(x: array<real>, xxLen: nat, segLen: nat, w: nat, xx: array<real>, lastI: int)
    returns (w': nat)
    requires xxLen <= xx.Length && w + Loaded(segLen, xxLen) <= x.Length && x != xx
    requires lastI == xxLen - 1 ==> xxLen >= 1
    modifies xx
    ensures xx[..] == Stride2Result(x[..], old(xx[..]), xxLen, segLen, w, lastI)
    ensures w' == w + segLen
  {
    var i := 0;
    while i < xxLen - 1
      invariant i % 2 == 0 && 0 <= i <= 2 * (xxLen / 2)
      invariant forall t :: 0 <= t < i ==> xx[t] == if t < Loaded(segLen, xxLen) then x[w + t] else 0.0
      invariant forall t :: i <= t < xx.Length ==> xx[t] == old(xx[t])
    {
      var inRange := i + 1 < segLen;
      if inRange {
        xx[i] := x[w + i];
        xx[i + 1] := x[w + i + 1];
      } else {
        xx[i] := 0.0;
        xx[i + 1] := 0.0;
      }
      i := i + 2;
    }
    if lastI == xxLen - 1 {
      xx[lastI] := 0.0;
    }
    w' := w + segLen;
  }

  /** In the overlap-add convolver xx_len = 2 * fft_len is even and
      segment_len <= fft_len < xx_len, so lines 18-19 change nothing: XX is
      the loop's window, whatever the global i holds. */
  lemma Stride2FixupHarmless(x: seq<real>, xx: seq<real>, xxLen: nat, segLen: nat, w: nat, lastI: int)
    requires xxLen <= |xx| && w + Loaded(segLen, xxLen) <= |x|
    requires xxLen % 2 == 0 && segLen < xxLen
    ensures Stride2Result(x, xx, xxLen, segLen, w, lastI)[..xxLen] == Stride2Window(x, xxLen, segLen, w)
  {
    var r := Stride2Result(x, xx, xxLen, segLen, w, lastI);
    var loop := Stride2Window(x, xxLen, segLen, w);
    forall t | 0 <= t < xxLen
      ensures r[t] == loop[t]
    {
      if t == xxLen - 1 {
        assert t >= Loaded(segLen, xxLen);
      }
    }
  }

  /** With an even segment_len (and xx_len even, as in the convolver) the
      stride-2 window is the plain window of src/convolve.h:51-56. */
  lemma Stride2MatchesEvenSegments(x: seq<real>, xxLen: nat, segLen: nat, w: nat)
    requires xxLen % 2 == 0 && segLen % 2 == 0 && w + Min(segLen, xxLen) <= |x|
    ensures Loaded(segLen, xxLen) == Min(segLen, xxLen)
    ensures Stride2Window(x, xxLen, segLen, w) == Window(x, xxLen, segLen, w)
  {
    assert Min(segLen, xxLen) % 2 == 0;
  }

  /** With an odd segment_len below xx_len the stride-2 window drops the
      window's last sample: XX[segment_len - 1] is 0.0 instead of
      X[w + segment_len - 1]; every other entry agrees. */
  lemma Stride2DropsLastSample(x: seq<real>, xxLen: nat, segLen: nat, w: nat)
    requires xxLen % 2 == 0 && segLen % 2 == 1 && segLen < xxLen && w + segLen <= |x|
    ensures Loaded(segLen, xxLen) == segLen - 1
    ensures Stride2Window(x, xxLen, segLen, w)[segLen - 1] == 0.0
    ensures Window(x, xxLen, segLen, w)[segLen - 1] == x[w + segLen - 1]
    ensures forall t :: 0 <= t < xxLen && t != segLen - 1 ==>
              Stride2Window(x, xxLen, segLen, w)[t] == Window(x, xxLen, segLen, w)[t]
  {
  }

  /** A two-sample filter gives fft_len = 2, segment_len = 1 and xx_len = 4;
      whatever the input and the window position, the stride-2 loop loads
      nothing, so every input sample is replaced by silence, where the plain
      window holds X[w]. */
  lemma Stride2LosesInputOfTwoTapFilter(x: seq<real>, w: nat)
    requires w < |x|
    ensures FftSize(2) == 2 && FftSize(2) + 1 - 2 == 1
    ensures Stride2Window(x, 4, 1, w) == [0.0, 0.0, 0.0, 0.0]
    ensures Window(x, 4, 1, w) == [x[w], 0.0, 0.0, 0.0]
  {
    assert FftSizeFrom(2, 2) == 2;
    assert Loaded(1, 4) == 0;
  }

  /** The stride-2 slide_window as evidently intended: each entry of a pair
      checked on its own, and the last entry of an odd xx_len handled after the
      loop with the loop's own i.  It loads the plain window. */
  method SlideWindowPairs(x: array<real>, xxLen: nat, segLen: nat, w: nat, xx: array<real>) returns (w': nat)
    requires xxLen <= xx.Length && w + Min(segLen, xxLen) <= x.Length && x != xx
    modifies xx
    ensures xx[..xxLen] == Window(x[..], xxLen, segLen, w)
    ensures xx[xxLen..] == old(xx[xxLen..])
    ensures w' == w + segLen
  {
    var i := 0;
    while i < xxLen - 1
      invariant i % 2 == 0 && 0 <= i <= 2 * (xxLen / 2)
      invariant forall t :: 0 <= t < i ==> xx[t] == if t < segLen then x[w + t] else 0.0
      invariant forall t :: i <= t < xx.Length ==> xx[t] == old(xx[t])
    {
      xx[i] := if i < segLen then x[w + i] else 0.0;
      xx[i + 1] := if i + 1 < segLen then x[w + i + 1] else 0.0;
      i := i + 2;
    }
    if i == xxLen - 1 {
      xx[i] := if i < segLen then x[w + i] else 0.0;
    }
    w' := w + segLen;
  }

  // ---------------------------------------------------------------------------
  // tune3.c: the maximum tracked while Y is written
  // ---------------------------------------------------------------------------

  /** update_max (src/tuning/tune3.c:4-8): max becomes max(max, |v|). */
  method UpdateMax(e: Engine, v: real)
    modifies e`maxAbs
    ensures e.maxAbs >= old(e.maxAbs) && e.maxAbs >= Abs(v)
    ensures e.maxAbs == old(e.maxAbs) || e.maxAbs == Abs(v)
  {
    var absVal := Abs(v);
    if absVal > e.maxAbs {
      e.maxAbs := absVal;
    }
  }

  /** The rewritten output loops (src/tuning/tune3.c:35-38 and 43-46): len
      samples of a go to Y from out on, and max takes in each of them. */
  method EmitTracked(e: Engine, out: nat, a: array<real>, len: nat)
    requires len <= a.Length && out + len <= e.y.Length && e.y != a
    modifies e`maxAbs, e.y
    ensures e.y[..] == old(e.y[..out]) + a[..len] + old(e.y[out + len..])
    ensures e.maxAbs == ScanMax(old(e.maxAbs), a[..len])
  {
    var y := e.y;
    var j := 0;
    while j < len
      invariant 0 <= j <= len && e.y == y
      invariant e.maxAbs == ScanMax(old(e.maxAbs), a[..j])
      invariant forall t :: 0 <= t < j ==> y[out + t] == a[t]
      invariant forall t :: 0 <= t < y.Length && !(out <= t < out + j) ==> y[t] == old(y[t])
    {
      assert a[..j + 1][..j] == a[..j];
      UpdateMax(e, a[j]);
      y[out + j] := a[j];
      j := j + 1;
    }
    assert a[..len] == a[..j];
    ghost var r := old(y[..out]) + a[..len] + old(y[out + len..]);
    forall t | 0 <= t < y.Length
      ensures y[t] == r[t]
    {
      if out <= t < out + len {
        assert y[out + (t - out)] == a[t - out];
      }
    }
  }

  /** The chunks written one after the other. */
  function Flatten(chunks: seq<seq<real>>): (s: seq<real>)
    ensures |chunks| > 0 ==> s == Flatten(chunks[..|chunks| - 1]) + chunks[|chunks| - 1]
  {
    if |chunks| == 0 then [] else Flatten(chunks[..|chunks| - 1]) + chunks[|chunks| - 1]
  }

  /** The maximum tracked chunk by chunk, from seed. */
  function TrackChunks(seed: real, chunks: seq<seq<real>>): real
  {
    if |chunks| == 0 then seed else ScanMax(TrackChunks(seed, chunks[..|chunks| - 1]), chunks[|chunks| - 1])
  }

  /** Tracking max while each chunk of Y is written once, in order, ends
      with the value the scan of src/tuning/tune3.c:23-29 finds afterwards
      over the whole output. */
  lemma {:induction false} TrackedMaxIsScan(seed: real, chunks: seq<seq<real>>)
    ensures TrackChunks(seed, chunks) == ScanMax(seed, Flatten(chunks))
  {
    if |chunks| > 0 {
      var init := chunks[..|chunks| - 1];
      TrackedMaxIsScan(seed, init);
      ScanMaxConcat(seed, Flatten(init), chunks[|chunks| - 1]);
    }
  }

  // ---------------------------------------------------------------------------
  // tune4.c: post_process_fft fused with the copy into REFR and IMFR
  // ---------------------------------------------------------------------------

  /** post_process_fft_one_off (src/tuning/tune4.c:6-23). */
  method PostProcessOneOff(fftLen: nat, xx: array<real>, rex: array<real>, imx: array<real>,
                           refr: array<real>, imfr: array<real>)
    requires 2 * (fftLen / 2) <= xx.Length && fftLen / 2 <= rex.Length && fftLen / 2 <= imx.Length
    requires fftLen / 2 <= refr.Length && fftLen / 2 <= imfr.Length
    requires xx != rex && xx != imx && rex != imx && refr != imfr
    requires refr != xx && refr != rex && refr != imx && imfr != xx && imfr != rex && imfr != imx
    modifies xx, rex, imx, refr, imfr
    ensures rex[..fftLen / 2] == PostRe(old(xx[..]), fftLen) && rex[fftLen / 2..] == old(rex[fftLen / 2..])
    ensures imx[..fftLen / 2] == PostIm(old(xx[..]), fftLen) && imx[fftLen / 2..] == old(imx[fftLen / 2..])
    ensures refr[..fftLen / 2] == PostRe(old(xx[..]), fftLen) && refr[fftLen / 2..] == old(refr[fftLen / 2..])
    ensures imfr[..fftLen / 2] == PostIm(old(xx[..]), fftLen) && imfr[fftLen / 2..] == old(imfr[fftLen / 2..])
    ensures xx[..] == Cleared(old(xx[..]), 2 * (fftLen / 2))
  {
    ghost var x0, re0, im0, fr0, fi0 := xx[..], rex[..], imx[..], refr[..], imfr[..];
    OneOffLoop(fftLen, xx, rex, imx, refr, imfr);
    ExtractedDone(re0, x0, fftLen, 0);
    ExtractedDone(im0, x0, fftLen, 1);
    ExtractedDone(fr0, x0, fftLen, 0);
    ExtractedDone(fi0, x0, fftLen, 1);
  }

  /** The loop of src/tuning/tune4.c:10-22: after it the first fft_len / 2
      entries of REX and REFR hold the real parts, those of IMX and IMFR the
      imaginary parts, and XX[0..2 * (fft_len / 2)) is zero. */
  method OneOffLoop(fftLen: nat, xx: array<real>, rex: array<real>, imx: array<real>,
                    refr: array<real>, imfr: array<real>)
    requires 2 * (fftLen / 2) <= xx.Length && fftLen / 2 <= rex.Length && fftLen / 2 <= imx.Length
    requires fftLen / 2 <= refr.Length && fftLen / 2 <= imfr.Length
    requires xx != rex && xx != imx && rex != imx && refr != imfr
    requires refr != xx && refr != rex && refr != imx && imfr != xx && imfr != rex && imfr != imx
    modifies xx, rex, imx, refr, imfr
    ensures rex[..] == Extracted(old(rex[..]), old(xx[..]), fftLen / 2, 0)
    ensures imx[..] == Extracted(old(imx[..]), old(xx[..]), fftLen / 2, 1)
    ensures refr[..] == Extracted(old(refr[..]), old(xx[..]), fftLen / 2, 0)
    ensures imfr[..] == Extracted(old(imfr[..]), old(xx[..]), fftLen / 2, 1)
    ensures xx[..] == Cleared(old(xx[..]), 2 * (fftLen / 2))
  {
    ghost var x0, re0, im0, fr0, fi0 := xx[..], rex[..], imx[..], refr[..], imfr[..];
    var i := 0;
    ghost var k := 0;
    while i < fftLen - 1
      invariant i == 2 * k && 0 <= k <= fftLen / 2
      invariant rex[..] == Extracted(re0, x0, k, 0) && imx[..] == Extracted(im0, x0, k, 1)
      invariant refr[..] == Extracted(fr0, x0, k, 0) && imfr[..] == Extracted(fi0, x0, k, 1)
      invariant xx[..] == Cleared(x0, i)
    {
      OneOffPair(xx, rex, imx, refr, imfr, i, k);
      ExtractedStep(re0, x0, k, 0);
      ExtractedStep(im0, x0, k, 1);
      ExtractedStep(fr0, x0, k, 0);
      ExtractedStep(fi0, x0, k, 1);
      ClearedStep(x0, i);
      i := i + 2;
      k := k + 1;
    }
  }

  /** One turn of the loop of src/tuning/tune4.c:10-22, on the pair at i. */
  method OneOffPair(xx: array<real>, rex: array<real>, imx: array<real>, refr: array<real>, imfr: array<real>,
                    i: nat, ghost k: nat)
    requires i == 2 * k && i + 1 < xx.Length && k < rex.Length && k < imx.Length && k < refr.Length && k < imfr.Length
    requires xx != rex && xx != imx && rex != imx && refr != imfr
    requires refr != xx && refr != rex && refr != imx && imfr != xx && imfr != rex && imfr != imx
    modifies xx, rex, imx, refr, imfr
    ensures rex[..] == old(rex[..])[k := old(xx[i])] && imx[..] == old(imx[..])[k := old(xx[i + 1])]
    ensures refr[..] == old(refr[..])[k := old(xx[i])] && imfr[..] == old(imfr[..])[k := old(xx[i + 1])]
    ensures xx[..] == old(xx[..])[i := 0.0][i + 1 := 0.0]
  {
    var idx := i / 2;
    rex[idx] := xx[i];
    imx[idx] := xx[i + 1];
    refr[idx] := rex[idx];
    imfr[idx] := imx[idx];
    xx[i] := 0.0;
    xx[i + 1] := 0.0;
  }

  /** The code tune4 replaces (src/tuning/tune4.c:27-33): post_process_fft,
      then the copy of the spectra_len = fft_len / 2 bins.  Its
      postcondition is that of PostProcessOneOff. */
  method PostProcessThenCopy(fftLen: nat, spectraLen: nat, xx: array<real>, rex: array<real>, imx: array<real>,
                             refr: array<real>, imfr: array<real>)
    requires spectraLen == fftLen / 2
    requires 2 * (fftLen / 2) <= xx.Length && fftLen / 2 <= rex.Length && fftLen / 2 <= imx.Length
    requires fftLen / 2 <= refr.Length && fftLen / 2 <= imfr.Length
    requires xx != rex && xx != imx && rex != imx && refr != imfr
    requires refr != xx && refr != rex && refr != imx && imfr != xx && imfr != rex && imfr != imx
    modifies xx, rex, imx, refr, imfr
    ensures rex[..fftLen / 2] == PostRe(old(xx[..]), fftLen) && rex[fftLen / 2..] == old(rex[fftLen / 2..])
    ensures imx[..fftLen / 2] == PostIm(old(xx[..]), fftLen) && imx[fftLen / 2..] == old(imx[fftLen / 2..])
    ensures refr[..fftLen / 2] == PostRe(old(xx[..]), fftLen) && refr[fftLen / 2..] == old(refr[fftLen / 2..])
    ensures imfr[..fftLen / 2] == PostIm(old(xx[..]), fftLen) && imfr[fftLen / 2..] == old(imfr[fftLen / 2..])
    ensures xx[..] == Cleared(old(xx[..]), 2 * (fftLen / 2))
  {
    PostProcess(fftLen, xx, rex, imx);
    CopySpectra(spectraLen, rex, imx, refr, imfr);
  }

  // ---------------------------------------------------------------------------
  // tune5.c: the unrolled per-bin multiply
  // ---------------------------------------------------------------------------

  /** FREQUENCY_CONVOLVE (src/tuning/tune5.c:1-4): bin j becomes the complex
      product, computed from the old REX[j]; no other bin changes. */
  method FrequencyConvolve(rex: array<real>, refr: array<real>, imx: array<real>, imfr: array<real>, j: nat)
    requires j < rex.Length && j < imx.Length && j < refr.Length && j < imfr.Length
    requires rex != imx && rex != refr && rex != imfr && imx != refr && imx != imfr
    modifies rex, imx
    ensures Complex(rex[j], imx[j]) == Times(Complex(old(rex[j]), old(imx[j])), Complex(refr[j], imfr[j]))
    ensures forall q :: 0 <= q < rex.Length && q != j ==> rex[q] == old(rex[q])
    ensures forall q :: 0 <= q < imx.Length && q != j ==> imx[q] == old(imx[q])
  {
    var temp := rex[j] * refr[j] - imx[j] * imfr[j];
    imx[j] := rex[j] * imfr[j] + imx[j] * refr[j];
    rex[j] := temp;
  }

  /** The loop unrolled three times with its remainder
      (src/tuning/tune5.c:19-29): the same spectra as the plain loop, for
      every spectra_len. */
  method UnrolledMultiply(spectraLen: nat, rex: array<real>, imx: array<real>, refr: array<real>, imfr: array<real>)
    requires spectraLen <= rex.Length && spectraLen <= imx.Length && spectraLen <= refr.Length && spectraLen <= imfr.Length
    requires rex != imx && rex != refr && rex != imfr && imx != refr && imx != imfr
    modifies rex, imx
    ensures rex[..] == ProductRe(old(rex[..]), old(imx[..]), refr[..], imfr[..], spectraLen)
    ensures imx[..] == ProductIm(old(rex[..]), old(imx[..]), refr[..], imfr[..], spectraLen)
  {
    var j: int := 0;
    while j < spectraLen - 2
      invariant 0 <= j <= spectraLen
      invariant forall q :: 0 <= q < j ==>
        Complex(rex[q], imx[q]) == Times(Complex(old(rex[q]), old(imx[q])), Complex(refr[q], imfr[q]))
      invariant forall q :: j <= q < rex.Length ==> rex[q] == old(rex[q])
      invariant forall q :: j <= q < imx.Length ==> imx[q] == old(imx[q])
    {
      FrequencyConvolve(rex, refr, imx, imfr, j);
      FrequencyConvolve(rex, refr, imx, imfr, j + 1);
      FrequencyConvolve(rex, refr, imx, imfr, j + 2);
      j := j + 3;
    }
    if j == spectraLen - 2 {
      FrequencyConvolve(rex, refr, imx, imfr, j);
      FrequencyConvolve(rex, refr, imx, imfr, j + 1);
    } else if j == spectraLen - 1 {
      FrequencyConvolve(rex, refr, imx, imfr, j);
    }
  }
}
