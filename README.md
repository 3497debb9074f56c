# Convolution reverb: a Dafny model

This project models the signal-processing core of *convolution-reverb-optimization*. That C program convolves a dry recording X with a room's impulse response H to give a reverberant output Y, normalises Y into [-1, 1] and writes it as a WAVE file. The model covers these parts:

- **The direct convolver and the normaliser** (`convolve_input_side` and `convolve` in `src/convolve.h`, and the same code in `src/alg-opt/convolve_before.h`).
  - Class `Convolve.Engine` holds the program's globals (N, M, P, max, Y, X, H) as fields.
  - Y is proved to hold the convolution sum Σ_{i+j=k} X[i]·H[j].
  - `max` is the largest absolute partial sum observed, seeded with DBL_MIN.
  - After the division, every sample lies in [-1, 1].
- **The overlap-add convolver** (`convolve_overlap_add_fft` with `slide_window`, `pre_process_fft` and `post_process_fft`, in `src/convolve.h` and `src/alg-opt/convolve_after.h`).
  - `fft_len` and `segment_len` are derived from M, X is zero-padded, and the filter's spectrum is computed.
  - The segment loop runs over XX, REX, IMX, REFR, IMFR and OLAP, then the flush and the final maximum scan.
  - Every loop is a method on arrays. Each is proved against a specification function (`Window`, `PostRe`/`PostIm`, `Interleaved`, `ProductRe`/`ProductIm`, `Run`, `OverlapAddOutput`), and the methods compose into `Convolve.Engine.OverlapAddFft`.
- **`four1`** (the Numerical Recipes FFT in `src/DFT_FFT.c`).
  - The bit-reversal phase is proved to be the bit-reversal permutation of the complex pairs.
  - Each butterfly stage is proved to combine every pair exactly once with its pass's twiddle factor.
  - The twiddles come from the trigonometric recurrence, with `sin` passed as an uninterpreted function.
- **The five hand-tuned variants** (`src/tuning/tune1.c` to `tune5.c`). Each is proved equal to the helper it replaces, except the stride-2 `slide_window` of tune2. For an odd `segment_len` that one drops a sample (see Findings).
- **The legacy WAVE reader and writer** (`src/OLD/wave_read.c`, `src/OLD/wave_write.c`).
  - Reader: the header parse, the frame arithmetic, the bit-depth limits and the sample decode.
  - Writer: the byte-order helpers, `makeWaveHeader`, and the `Wave` record with `waveSetDuration` and `waveAddSample`. Also the clamp loop of `write_wav` and the 44-byte file image.
  - The file the corrected `write_wav` produces (duration n/44100, see Findings) is proved to read back through the reader: the header parses to itself, and each sample is its 16-bit value over 32767.

`arith.dfy` (module `CArith`) holds the C arithmetic the models share: truncating division, 16- and 32-bit wrap-around, and `|`, `&` and `<<` on ints. Samples are `real`. Bytes are integers in [0, 256).

## Model

| member | source | states |
|---|---|---|
| `Fft.RevBitsInvolution` | src/DFT_FFT.c:31-42 | Reversing the low log2(nn) bits of a pair index twice gives the index back, so the reversal phase pairs each index with exactly one partner. |
| `Fft.NextReversed` | src/DFT_FFT.c:36-41 | The m/j walk turns j = 2·rev(a)+1 into 2·rev(a+1)+1, the next bit-reversed pair index, on every pass but the last. |
| `Fft.WalkOffEnd` | src/DFT_FFT.c:37-40 | The walk clears every bit (m falls below 2) only on the last pass, where a+1 = nn. |
| `Fft.Swap` | src/DFT_FFT.c:8 | SWAP exchanges the two entries and leaves every other entry alone. |
| `Fft.SwappedPermutes` | src/DFT_FFT.c:8 | An exchange keeps the multiset of values. |
| `Fft.SwapPairs` | src/DFT_FFT.c:33-34 | The two SWAPs exchange complex pair p with pair r, real and imaginary parts together. |
| `Fft.ExchangePermutes` | src/DFT_FFT.c:33-34 | Exchanging two pairs permutes the buffer. |
| `Fft.ExchangeSelf` | src/DFT_FFT.c:32-35 | Exchanging a pair with itself changes nothing, so skipping j == i loses nothing. |
| `Fft.SwapIfAbove` | src/DFT_FFT.c:32-35 | The guarded swap exchanges pair a with rev(a) exactly when rev(a) > a; otherwise the buffer is unchanged. Each pair is moved at most once. |
| `Fft.ReversalPass` | src/DFT_FFT.c:31-42 | One pass extends the walk by one pair-position and leaves j at the next reversed index. |
| `Fft.WalkedPermutes` | src/DFT_FFT.c:31-42 | Every prefix of the reversal loop is a permutation of the input. |
| `Fft.WalkFinished` | src/DFT_FFT.c:31-42 | The completed walk is the bit-reversal permutation, and it is a permutation of the input. |
| `Fft.ReversalLoop` | src/DFT_FFT.c:28-42 | The loop over all nn pair-positions carries the buffer from the input to the finished walk. |
| `Fft.BitReversal` | src/DFT_FFT.c:28-42 | Afterwards the pair at position q is the original pair at rev(q), real and imaginary parts together, and the buffer is a permutation of the input. |
| `Fft.BitReversedTwice` | src/DFT_FFT.c:31-42 | Applying the reversal phase twice restores the input. |
| `Fft.RecurrenceOnParts` | src/DFT_FFT.c:63-64 | The update of (wr, wi) written on the parts is the complex w·wp + w. |
| `Fft.TwiddleStep` | src/DFT_FFT.c:63-64 | The recurrence takes the twiddle of pass t to the twiddle of pass t+1. |
| `Fft.PartnerInRange` | src/DFT_FFT.c:54-55 | The partner j = i + mmax of an upper pair lies in the same block, inside the buffer. |
| `Fft.ButterflyAt` | src/DFT_FFT.c:56-61 | A butterfly with temp = w·data[j] leaves old data[i] − temp at j and old data[i] + temp at i, for any twiddle w, and touches no other entry. |
| `Fft.ButterflyPairs` | src/DFT_FFT.c:56-61 | On complex pairs the butterfly gives x + w·y at the upper pair and x − w·y at the lower pair. |
| `Fft.ButterflyKeeps` | src/DFT_FFT.c:56-61 | A butterfly leaves every position outside its two pairs unchanged. |
| `Fft.Butterfly` | src/DFT_FFT.c:55-61 | The in-place butterfly computes the butterfly on the buffer's old values. |
| `Fft.ButterflyDoesStage` | src/DFT_FFT.c:54-62 | A butterfly the loops perform puts on its two pairs what the whole stage puts there. |
| `Fft.StageResultUpper` | src/DFT_FFT.c:60-61 | The stage leaves x + w·y at the upper pair of each butterfly. |
| `Fft.StageResultLower` | src/DFT_FFT.c:58-59 | The stage leaves x − w·y at the lower pair of each butterfly. |
| `Fft.DoneStart` | src/DFT_FFT.c:53 | At the start of pass t, exactly the pairs of the earlier passes are done. |
| `Fft.DoneStep` | src/DFT_FFT.c:54 | One step of the i loop adds exactly the pairs c and c + mmax/2 to the done set, so each pair is butterflied once. |
| `Fft.ProgressStep` | src/DFT_FFT.c:54-62 | A butterfly of the i loop keeps the invariant: done pairs hold the stage's result, and pending pairs hold their input. |
| `Fft.ProgressNextPass` | src/DFT_FFT.c:53-65 | When the i loop has left the buffer, pass t is complete. |
| `Fft.ProgressEnd` | src/DFT_FFT.c:53-65 | After the last pass of the m loop the buffer is exactly the stage's result. |
| `Fft.StagePass` | src/DFT_FFT.c:54-62 | One pass of the m loop completes all butterflies of that pass and disturbs nothing else. |
| `Fft.Stage` | src/DFT_FFT.c:46-66 | One stage turns the buffer into the stage function, each pair combined once with the twiddle of its pass. |
| `Fft.StageFits` | src/DFT_FFT.c:44-46 | Every mmax = 2^e that the while loop reaches divides the buffer into whole blocks of istep reals. |
| `Fft.StagesStep` | src/DFT_FFT.c:45-67 | The stages from mmax = 2^e are that stage followed by the stages from 2^(e+1). |
| `Fft.StagesEnd` | src/DFT_FFT.c:45 | Once mmax reaches n no stage is left. |
| `Fft.NextStage` | src/DFT_FFT.c:46-66 | One turn of the while loop advances the remaining stages by one. |
| `Fft.StageLoop` | src/DFT_FFT.c:44-67 | The while loop applies the stages mmax = 2, 4, …, n/2 in order. |
| `Fft.ButterflyStages` | src/DFT_FFT.c:44-67 | The butterfly phase on 2·nn reals leaves the log2(nn) stages applied to its input. |
| `Fft.Four1` | src/DFT_FFT.c:22-68 | four1 leaves the bit-reversal permutation followed by all butterfly stages. |
| `Fft.Four1OfOnePair` | src/DFT_FFT.c:28-45 | With nn = 1 the buffer is unchanged: no swap fires and no stage runs. |
| `Fft.FactorsMirror` | src/DFT_FFT.c:47-50 | With isign = −1, wpr and wpi are the forward ones under the reflected sine. |
| `Fft.StagesInverseMirrorsForward` | src/DFT_FFT.c:44-67 | Every stage sequence with isign = −1 is the forward one with the angle negated. |
| `Fft.InverseMirrorsForward` | src/DFT_FFT.c:47 | The inverse transform is the forward one with the angle negated. isign enters only through theta, and nothing is scaled. |
| `OverlapAdd.FftSize` | src/convolve.h:93-95 | fft_len is a power of two, at least 2 and at least M, and it is 2 or half of it is below M. |
| `OverlapAdd.FftSizeLeast` | src/convolve.h:93-95 | No smaller power of two is at least 2 and at least M. |
| `OverlapAdd.FftLength` | src/alg-opt/convolve_after.h:48-50 | The doubling loop ends with that least power of two. |
| `OverlapAdd.PaddedLen` | src/convolve.h:101-105 | The padded length is a multiple of segment_len, at least num_points and less than segment_len above it. |
| `OverlapAdd.PaddedLenLeast` | src/convolve.h:101-105 | It is the least multiple of segment_len that holds num_points. |
| `OverlapAdd.Padded` | src/convolve.h:101-118 | The padded X keeps the original samples and has zeros in the added entries. |
| `OverlapAdd.KernelOf` | src/convolve.h:93-98 | The kernel's fft_len is the least power of two above, and segment_len = fft_len + 1 − M. |
| `OverlapAdd.SlideWindow` | src/convolve.h:51-56 | XX[i] = X[w+i] for i < segment_len, and XX[i] = 0 up to xx_len. XX beyond xx_len is unchanged, and w + segment_len is returned. |
| `OverlapAdd.PreProcess` | src/convolve.h:62-67 | XX[2i] = REX[i] and XX[2i+1] = IMX[i] for i < spectra_len; nothing else in XX changes. |
| `OverlapAdd.PostProcess` | src/convolve.h:72-81 | REX[k] = XX[2k] and IMX[k] = XX[2k+1] for k < fft_len/2. Exactly XX[0..2·(fft_len/2)) is zeroed, and the rest of REX, IMX and XX is unchanged. |
| `OverlapAdd.SplitPairs` | src/convolve.h:73-80 | The loop over even i < fft_len − 1 splits exactly fft_len/2 pairs. |
| `OverlapAdd.SplitPair` | src/convolve.h:74-79 | One turn copies the pair at i to index i/2 and zeroes it. |
| `OverlapAdd.ExtractedDone` | src/convolve.h:73-80 | After all pairs are split, the prefix holds the real or imaginary parts and the rest is untouched. |
| `OverlapAdd.PostThenPre` | src/alg-opt/convolve_after.h:17-36 | post_process_fft followed by pre_process_fft with spectra_len = fft_len/2 restores XX. |
| `OverlapAdd.PreThenPost` | src/convolve.h:62-81 | Interleaving spectra and splitting them again gives the spectra back. |
| `OverlapAdd.MultiplySpectra` | src/convolve.h:186-190 | Bin j becomes the complex product (REX·REFR − IMX·IMFR, REX·IMFR + IMX·REFR) of its old values, for j < spectra_len; other bins are unchanged. |
| `OverlapAdd.ZeroFill` | src/convolve.h:152-153 | OLAP starts all zero. |
| `OverlapAdd.CopySpectra` | src/convolve.h:166-169 | REFR and IMFR equal REX and IMX on [0, spectra_len), and the rest is unchanged. |
| `OverlapAdd.AddOverlap` | src/convolve.h:197-198 | XX[j] += OLAP[j] for j < olap_len. |
| `OverlapAdd.SaveOverlap` | src/convolve.h:201-202 | OLAP becomes XX[segment_len..fft_len): exactly fft_len − segment_len = M − 1 entries. |
| `OverlapAdd.Emit` | src/convolve.h:206-208 | len samples go to Y[out..out+len), and the rest of Y is unchanged. |
| `OverlapAdd.FilterResponse` | src/convolve.h:157-169 | H zero-padded into XX, transformed and split leaves the kernel's spectrum in REFR and IMFR. |
| `OverlapAdd.ProcessSegment` | src/convolve.h:178-208 | One segment: the window's transform times the filter response, transformed back with the overlap added. Its first segment_len samples go to Y[out..], the tail becomes OLAP, and w advances by segment_len. |
| `OverlapAdd.Run` | src/convolve.h:176-209 | After count segments, OLAP has M − 1 entries and the output has count·segment_len samples. |
| `OverlapAdd.RunStart` | src/convolve.h:152-153 | A run starts with a zero overlap and no output. |
| `OverlapAdd.RunExtends` | src/convolve.h:176-209 | Processing segment i extends the run by one segment, and Y past the segment is untouched. |
| `OverlapAdd.SegmentStep` | src/alg-opt/convolve_after.h:132-165 | After segment i, OLAP and Y[0..(i+1)·segment_len) are those of the run of i + 1 segments. |
| `OverlapAdd.SegmentLoop` | src/convolve.h:172-209 | After the loop, OLAP and Y[0..num_segments·segment_len) are those of the run, and the rest of Y is untouched. |
| `OverlapAdd.Flush` | src/convolve.h:212-213 | The final OLAP fills Y[num_points..P), which completes the output. |
| `OverlapAdd.OverlapAddOutput` | src/convolve.h:176-213 | The segments' outputs followed by the final overlap cover exactly P = num_points + M − 1 samples. |
| `OverlapAdd.SegmentRun` | src/convolve.h:130-213 | Allocation, the filter spectrum, the segment loop and the flush write all of Y[0..P), each sample once, in bounds. |
| `Convolve.PartialConvOfSilence` | src/convolve.h:36 | A silent X contributes nothing to any output sample. |
| `Convolve.PartialConvOutside` | src/convolve.h:34-36 | No term i + j falls outside [0, N + M − 1), so P samples hold the whole convolution. |
| `Convolve.AccumulatingStep` | src/convolve.h:36 | The update Y[i+j] += X[i]·H[j] adds exactly one term, and the updated sample is the observed partial sum. |
| `Convolve.TailAdds` | src/convolve.h:34-36 | Rows past the last i with i ≤ k add nothing to Y[k]. |
| `Convolve.Raise` | src/convolve.h:39-41 | One step of the max update gives the larger of max and the absolute value. |
| `Convolve.ScanMaxBounds` | src/convolve.h:216-221 | The scanned maximum is at least the seed and at least every absolute value. |
| `Convolve.ScanMaxAttained` | src/convolve.h:216-221 | The scanned maximum is the seed or one of the absolute values, so it equals max(DBL_MIN, max_k Abs(Y[k])). |
| `Convolve.ScanMaxConcat` | src/convolve.h:217-221 | Scanning a and then b is scanning a + b. |
| `Convolve.InUnitRange` | src/convolve.h:258-259 | Dividing by a positive bound on the absolute values gives a sample in [-1, 1]. |
| `Convolve.FinalSampleObserved` | src/convolve.h:39-41 | Each final Y[k] is one of the partial sums the max update observes. |
| `Convolve.ConvOfSilence` | src/alg-opt/convolve_before.h:35-44 | A silent X convolves to all zeros. |
| `Convolve.Realloc` | src/convolve.h:109 | realloc gives a fresh array of the new length that keeps the common prefix. |
| `Convolve.Engine.constructor` | src/convolve.h:17-22 | After initialize, X and H hold the two recordings and their lengths. |
| `Convolve.Engine.Allocate` | src/convolve.h:239-248 | N, M and P = N + M − 1 are set, and Y is allocated with P entries exactly when P is not negative. |
| `Convolve.Engine.AddTerm` | src/convolve.h:36-41 | One update adds X[i]·H[j] into Y[i+j]. max never decreases, bounds every Y entry and the new partial sum, and is DBL_MIN or an observed value. |
| `Convolve.Engine.AddRow` | src/convolve.h:35-42 | Row i adds X[i]·H[j] for every j and keeps the max invariant. |
| `Convolve.Engine.ConvolveInputSide` | src/convolve.h:27-44 | Y[k] = Σ_{i+j=k} X[i]·H[j] for k < P. max ≥ DBL_MIN, max bounds every Abs(Y[k]) and every observed partial sum, and it is DBL_MIN or one of those sums. |
| `Convolve.Engine.Normalise` | src/alg-opt/convolve_before.h:72-73 | Y[k] becomes Y[k]/max for k < P, and Y beyond P is unchanged. |
| `Convolve.Engine.Convolve` | src/convolve.h:237-260 | When N + M ≥ 1, every output sample is the convolution over max, and lies in [-1, 1]. max bounds every partial sum the loop observed, and is DBL_MIN or one of them. N and M are set to the recordings' lengths, and a failed allocation (N + M = 0) leaves max unchanged. |
| `Convolve.Engine.ScanOutput` | src/alg-opt/convolve_after.h:172-177 | max becomes the scan of Y[0..P) seeded with DBL_MIN. |
| `Convolve.Engine.PadInput` | src/alg-opt/convolve_after.h:56-82 | X grows to the least multiple of segment_len with zero fill, and P and Y grow by the same amount. Nothing is reallocated when X already fits. |
| `Convolve.Engine.SegmentsOnPadded` | src/convolve.h:130-221 | On padded X, Y becomes the overlap-add output and max its scan, with X unchanged. |
| `Convolve.Engine.OverlapAddFft` | src/convolve.h:86-230 | X is padded and P updated. With M ≥ 1, Y is the overlap-add output and max = max(DBL_MIN, max_k Abs(Y[k])). With M = 0 the OLAP allocation fails: the function stops after the padding and max keeps its old value. |
| `Tuning.PreProcessCached` | src/tuning/tune1.c:5-12 | With idx = 2i cached, XX is the same as the plain pre_process_fft leaves. |
| `Tuning.PostProcessCached` | src/tuning/tune1.c:17-28 | With idx = i/2 cached, REX, IMX and XX are the same as the plain post_process_fft leaves. |
| `Tuning.SplitPairsCached` | src/tuning/tune1.c:19-27 | The cached loop splits exactly fft_len/2 pairs and zeroes exactly that prefix of XX. |
| `Tuning.SplitPairCached` | src/tuning/tune1.c:20-26 | One turn copies the pair at i to idx = i/2 and zeroes it. |
| `Tuning.Loaded` | src/tuning/tune2.c:7-8 | The stride-2 loop loads an even number of samples, within 2 of min(segment_len, xx_len). |
| `Tuning.SlideWindowStride2` | src/tuning/tune2.c:6-23 | The stride-2 slide_window as written leaves the pairwise window and the fix-up of lines 18-19, and returns w + segment_len. |
| `Tuning.Stride2FixupHarmless` | src/tuning/tune2.c:18-19 | With xx_len even and segment_len < xx_len, the fix-up changes nothing, whatever the global i holds. |
| `Tuning.Stride2MatchesEvenSegments` | src/tuning/tune2.c:7-17 | With an even segment_len the stride-2 window equals slide_window's window on all of XX[0..xx_len). |
| `Tuning.Stride2DropsLastSample` | src/tuning/tune2.c:8 | With an odd segment_len, XX[segment_len−1] is 0 instead of X[w+segment_len−1], and every other entry agrees. |
| `Tuning.Stride2LosesInputOfTwoTapFilter` | src/tuning/tune2.c:8-16 | With M = 2 (segment_len 1), for every input X and window position w, the loaded window is all zeros where slide_window gives X[w] followed by zeros. |
| `Tuning.SlideWindowPairs` | src/tuning/tune2.c:6-23 | The corrected stride-2 loop loads exactly slide_window's window and returns w + segment_len. |
| `Tuning.UpdateMax` | src/tuning/tune3.c:4-8 | max becomes max(old max, Abs(v)): it never decreases and bounds Abs(v). |
| `Tuning.EmitTracked` | src/tuning/tune3.c:35-38 | The rewritten output loop copies the samples into Y and leaves max as the scan of them from the old max. |
| `Tuning.TrackedMaxIsScan` | src/tuning/tune3.c:23-29 | Tracking max chunk by chunk while each Y entry is written once gives the value the original scan over Y finds. |
| `Tuning.PostProcessOneOff` | src/tuning/tune4.c:6-23 | REX and REFR hold XX[2k], and IMX and IMFR hold XX[2k+1], for k < fft_len/2. Exactly that prefix of XX is zeroed and the rest is unchanged. |
| `Tuning.OneOffLoop` | src/tuning/tune4.c:10-22 | The fused loop fills the four spectra and zeroes XX pair by pair. |
| `Tuning.OneOffPair` | src/tuning/tune4.c:11-21 | One turn writes the pair into REX/IMX and REFR/IMFR and zeroes it in XX. |
| `Tuning.PostProcessThenCopy` | src/tuning/tune4.c:27-33 | post_process_fft then the copy loop meets the same postcondition as the fused version. |
| `Tuning.FrequencyConvolve` | src/tuning/tune5.c:1-4 | The macro sets bin j to the complex product computed from the old rex[j], and touches no other index. |
| `Tuning.UnrolledMultiply` | src/tuning/tune5.c:19-29 | For every spectra_len, the 3-way unrolled loop and its remainder give the same spectra as the plain loop, with no index ≥ spectra_len touched. |
| `WaveRead.SignedChar` | src/OLD/wave_read.c:209 | A char holding byte b is in [-128, 128), has the bit pattern b, and is negative exactly when b ≥ 128. |
| `WaveRead.ToBigEndianIsLittleEndian` | src/OLD/wave_read.c:23-25 | to_big_endian is the little-endian value b0 + 2^8·b1 + 2^16·b2 + 2^24·b3 as a 32-bit int, exact when b3 < 128. |
| `WaveRead.FormatName` | src/OLD/wave_read.c:27-39 | A known code writes its name into the buffer; any other code leaves the buffer as it was. |
| `WaveRead.FormatNameDeterminesCode` | src/OLD/wave_read.c:28-37 | Codes 1, 6 and 7 get distinct names. |
| `WaveRead.ReadShortIsLittleEndian` | src/OLD/wave_read.c:83 | A two-byte field is b0 + 256·b1 narrowed to a short. |
| `WaveRead.ParseHeader` | src/OLD/wave_read.c:64-115 | The header is read when the file holds all its fields. The short fields are in the short range, and subChunk1Size is the field at offset 16. |
| `WaveRead.ParseHeaderLayout` | src/OLD/wave_read.c:106-115 | The data id and size sit at bytes 36..44 after a 16-byte format subchunk, and two bytes later otherwise. |
| `WaveRead.NumSamples` | src/OLD/wave_read.c:118-119 | num_samples is defined exactly when the frame size is not zero. |
| `WaveRead.NumSamplesCountsFrames` | src/OLD/wave_read.c:118-119 | For positive sizes, num_samples is the number of whole frames in the data subchunk. |
| `WaveRead.Limits` | src/OLD/wave_read.c:163-179 | The limits are [−2^(b−1), 2^(b−1)−1] for depths 8, 16 and 32, and [0, 0] for any other depth. |
| `WaveRead.Sample32AsWrittenSmearsSign` | src/OLD/wave_read.c:200-205 | The bytes 80 00 00 00 hold 128, but the 32-bit decode as written reads −128. |
| `WaveRead.Sample32IsLittleEndian` | src/OLD/wave_read.c:200-204 | The masked 32-bit decode is the little-endian int, the same as to_big_endian. |
| `WaveRead.Sample16IsLittleEndian` | src/OLD/wave_read.c:206-207 | (b0 & 255) or-ed with (b1 << 8) is the little-endian value as a signed short, signed through b1. |
| `WaveRead.MaskedLowByte` | src/OLD/wave_read.c:207 | Masking a signed char with 255 gives the byte back. |
| `WaveRead.ChannelValueInLimits` | src/OLD/wave_read.c:211-213 | With bytes_in_each_channel = bitsPerSample/8, the decoded value is within the depth's limits, so the range message never fires. |
| `WaveRead.Scale` | src/OLD/wave_read.c:216 | The stored sample is finite exactly when high_limit ≠ 0, and then it times high_limit is the decoded value. |
| `WaveRead.ScaleRange` | src/OLD/wave_read.c:215-216 | Scaling maps the depth's range onto [−1 − 1/high, 1]. |
| `WaveRead.Frames` | src/OLD/wave_read.c:186-190 | Every frame fread delivers has size_of_each_sample bytes. |
| `WaveRead.FramesCount` | src/OLD/wave_read.c:186-231 | The loop reads min(num_samples, whole frames left) frames, stopping at the first short read. |
| `WaveRead.FramesAt` | src/OLD/wave_read.c:189 | Frame k is bytes k·size .. (k+1)·size after the header. |
| `WaveRead.SampleData` | src/OLD/wave_read.c:183-218 | sample_data has num_samples entries (none when it is negative). |
| `WaveRead.StoreChannels` | src/OLD/wave_read.c:196-219 | The channel loop stores one value at sample_data[i−1], decoded from the frame's first bytes whatever the channel. |
| `WaveRead.ReadSamples` | src/OLD/wave_read.c:183-232 | The sample loop leaves frame k's scaled value at k, and unwritten memory past the frames read. |
| `WaveRead.ShareFits` | src/OLD/wave_read.c:155-156 | When the channel share divides the frame exactly, there is a channel and the share fits in the frame. |
| `WaveRead.ReadPcm` | src/OLD/wave_read.c:149-239 | The PCM branch returns the samples when the frame splits evenly over the channels, and nothing otherwise. |
| `WaveRead.ExtractWav` | src/OLD/wave_read.c:48-245 | extract_wav returns length −1 for a file that does not open, and num_samples with no data for non-PCM. For PCM it returns num_samples and the decoded samples. |
| `WaveWrite.ReverseEndianness` | src/OLD/wave_write.c:18-27 | The first size bytes are reversed in place and the rest is unchanged; a size ≤ 0 changes nothing. |
| `WaveWrite.ReversedPrefixTwice` | src/OLD/wave_write.c:18-27 | Reversing the same prefix twice gives the buffer back. |
| `WaveWrite.ToBigEndian` | src/OLD/wave_write.c:28-33 | toBigEndian reverses exactly on a little-endian host. |
| `WaveWrite.ToLittleEndian` | src/OLD/wave_write.c:34-39 | toLittleEndian reverses exactly on a big-endian host. |
| `WaveWrite.ByteOrderAnyHost` | src/OLD/wave_write.c:12-39 | On either host, toLittleEndian over a whole variable leaves its little-endian bytes, and toBigEndian leaves their reverse. |
| `WaveWrite.LeBytesValue` | src/OLD/wave_write.c:157-165 | The n bytes written for a field hold its value modulo 2^(8n). |
| `WaveWrite.BigEndianHostWritesHighBytes` | src/OLD/wave_write.c:131-136 | A 16-bit sample of 1 is written as 01 00 on a little-endian host but 00 00 on a big-endian host. |
| `WaveWrite.StoredBytesOnLittleEndianHost` | src/OLD/wave_write.c:119-152 | On a little-endian host the code as written stores the low bytes of the sample, least significant first. |
| `WaveWrite.Truncate` | src/OLD/wave_write.c:104 | The float-to-integer conversion drops the fraction, toward zero. |
| `WaveWrite.Quantise16Error` | src/OLD/wave_write.c:131 | A 16-bit sample in [-1, 1] quantises into [−32767, 32767]. Read back over 32767 it is within 1/32767 of the input, on the side of zero. |
| `WaveWrite.SampleWidth` | src/OLD/wave_write.c:119-152 | The bytes per channel are bitsPerSample/8 for depths 8, 16 and 32, and 0 for any other depth. |
| `WaveWrite.EncodedAt` | src/OLD/wave_write.c:135-137 | Value k of a written block sits at bytes k·w .. (k+1)·w. |
| `WaveWrite.MakeWaveHeader` | src/OLD/wave_write.c:41-84 | The header has ids RIFF/WAVE/"fmt "/data, audioFormat 1, the given rate, channels and depth, chunkSize 36, subChunk1Size 16 and subChunk2Size 0. |
| `WaveWrite.MakeWaveHeaderRates` | src/OLD/wave_write.c:63-64 | Without overflow, blockAlign = ch·bps/8 and byteRate = sr·ch·bps/8, both truncated. With whole bytes per frame, also byteRate = sr·blockAlign. |
| `WaveWrite.HeaderBytes` | src/OLD/wave_write.c:170 | The header written by fwrite is 44 bytes. |
| `WaveWrite.HeaderSlices` | src/OLD/wave.h:8-29 | Each header field lies at its declared offset, with the numbers little-endian. |
| `WaveWrite.IntRoundTrip` | src/OLD/wave_read.c:23-25 | A 32-bit int the writer emits reads back through to_big_endian. |
| `WaveWrite.ShortRoundTrip` | src/OLD/wave_read.c:99-100 | A short the writer emits reads back through b0 or-ed with (b1 << 8). |
| `WaveWrite.HeaderRoundTrip` | src/OLD/wave_write.c:154-171 | The header waveToFile writes parses back to itself, and the samples start right after its 44 bytes. |
| `WaveWrite.Sample16RoundTrip` | src/OLD/wave_write.c:129-139 | A 16-bit sample written for v reads back as v narrowed to a short. |
| `WaveWrite.Sample32RoundTrip` | src/OLD/wave_write.c:140-152 | A 32-bit sample written for v reads back as v narrowed to an int, through the corrected decode. |
| `WaveWrite.Wave.constructor` | src/OLD/wave_write.c:95-99 | makeWave carries makeWaveHeader's header. |
| `WaveWrite.Wave.SetDuration` | src/OLD/wave_write.c:103-111 | The buffer is byteRate·seconds bytes, truncated, with index 0, size equal to the buffer length, and nSamples = ch·sr·seconds truncated. Without overflow, chunkSize = 36 + subChunk2Size and size = subChunk2Size. |
| `WaveWrite.Wave.AddSample` | src/OLD/wave_write.c:112-153 | index advances by numChannels·bitsPerSample/8 for depths 8, 16 and 32, and not at all otherwise. The quantised samples' bytes are written at the old index, and nothing else changes. |
| `WaveWrite.Clamp` | src/OLD/wave_write.c:192-195 | The clamp lands in [-1, 1] and leaves in-range samples unchanged. |
| `WaveWrite.ClampIsNearest` | src/OLD/wave_write.c:192-195 | The clamped value is the point of [-1, 1] nearest the sample. |
| `WaveWrite.WriteSamples` | src/OLD/wave_write.c:189-199 | Each sample is clamped in place, and its 16-bit value is written after those of the samples before it. |
| `WaveWrite.WrittenHeader` | src/OLD/wave_write.c:184-185 | write_wav's header is writable, mono, 16-bit, 44100 Hz, with byteRate 88200 and blockAlign 2, and chunkSize = 36 + data size. |
| `WaveWrite.WrittenHeaderSized` | src/OLD/wave_write.c:184-185 | makeWave(44100, 1, 16) after waveSetDuration for n samples has that header. |
| `WaveWrite.DataSizeAsWritten` | src/OLD/wave_write.c:177-185 | With the duration as written, the buffer and subChunk2Size come out 36 bytes too long, and the reader counts n + 18 samples. |
| `WaveWrite.DurationGivesDataBytes` | src/OLD/wave_write.c:181 | With duration n/44100 the buffer holds exactly 2n bytes, and the reader counts n samples. |
| `WaveWrite.WriteWav` | src/OLD/wave_write.c:175-206 | write_wav (corrected duration) gives a mono 16-bit wave whose data is the quantised clamped samples, with the samples clamped in place. |
| `WaveWrite.ExtractWrittenFile` | src/OLD/wave_read.c:117-149 | extract_wav on the written file takes the PCM branch, with a 2-byte frame and n samples. |
| `WaveWrite.EncodedSamplesDecode` | src/OLD/wave_read.c:186-218 | A written block of 16-bit values decodes to each value over 32767. |
| `WaveWrite.WrittenFileReadsBack` | src/OLD/wave_write.c:154-171 | The file the corrected write_wav produces reads back as the sample count and each sample's 16-bit value over 32767. |

## Left out

- The twiddle values. `sin` is a function parameter. theta, wpr and wpi are stated through it, with no trigonometric identity, and 6.28318530717959 stands for 2π.
- The model does not claim that four1 computes the DFT, or that the overlap-add output equals the direct convolution. That needs DFT theory the code does not state, and the code's packing does not follow the textbook layout: raw samples go to interleaved indices, and only bins below fft_len/2 are multiplied.
- IEEE floating point: samples are exact reals, with no rounding, overflow or NaN. DBL_MIN is an arbitrary positive constant (`Convolve.Engine.dblMin`).
- malloc failure. Allocation succeeds, except that a negative size (P < 0 in `convolve`, OLAP with M = 0 in the overlap-add convolver) is reported as failure. realloc failure and `malloc(0)` are not modelled.
- Both convolvers are modelled. The dispatch between them (the overlap-add call is commented out) is not. The globals are fields of `Convolve.Engine`, and their persistence across runs is not followed.
- initialize reads the recordings through libsndfile. `Convolve.Engine.constructor` takes their samples as values.
- convolve (src/convolve.h:264, src/alg-opt/convolve_before.h:78) writes Y through the five-argument `write_wav` of src/wave_utils.c, a libsndfile wrapper. That wrapper is not part of this model. `WaveWrite.WriteWav` models the legacy writer of src/OLD/wave_write.c:175, which nothing in the sources calls.
- The legacy writer ends with `waveToFile` and `waveDestroy`. These are modelled as values (`WaveWrite.HeaderBytes` followed by the data), not as file writes. fopen, fread, fwrite, ferror, feof and fclose are not modelled.
- isBigEndian is replaced by the `Host` parameter in the byte-order helpers (`WaveWrite.ToLittleEndian`, `WaveWrite.ToBigEndian`, `WaveWrite.StoredBytesAsWritten`). The sample writer does not take it (see the `WaveWrite.Wave.AddSample` line below).
- Reader: when a file ends inside the header, the C code goes on with stale buffers; `WaveRead.Extract` gives None for it. The same holds for a zero frame size (C divides by zero) and a negative frame size on PCM data (C declares a negative-size array). `duration_in_seconds` and the DEBUG printing are not modelled.
- WaveRead.ExtractWav, `WaveRead.ReadPcm`, `WaveRead.ReadSamples` and `WaveRead.StoreChannels` decode 32-bit samples with the corrected `WaveRead.Sample32` (the three low bytes masked), not the sign-smearing or of wave_read.c:200-204. The as-written decode is `WaveRead.Sample32AsWritten` (see Findings). For bytes `80 00 00 00` the model gives 128/2147483647 where the C code gives −128/2147483647, and likewise for every frame with a low byte of 128 or more.
- WaveRead.ExtractWav: the 8-bit decode reads a signed char, while the writer stores 8-bit samples offset by 127. The two are modelled as written and no 8-bit round trip is claimed.
- WaveWrite.Quantise, `WaveWrite.TotalBytes` and `WaveWrite.SampleCount` use exact real products before truncating. The float rounding of `127+127.0*x`, `pow(2,31)-1` and the float duration arithmetic is not modelled. Out-of-range float-to-int conversions (undefined in C) keep the low bytes of the truncated value.
- WaveWrite.WriteWav uses the corrected duration n/44100 (`WaveWrite.Duration`), so the buffer and subChunk2Size are 2n bytes. The C code's duration gives 2n + 36 bytes, 36 of them never written, and a reader count of n + 18 (`WaveWrite.DataSizeAsWritten`, see Findings).
- WaveWrite.WriteWav fixes numChannels = 1, the value convolve passes to the libsndfile writer. The duration term then uses 1 where the C code uses the parameter.
- WaveWrite.Wave.AddSample models a little-endian host: it stores the corrected `WaveWrite.StoredBytes` (the low bytes, least significant first). On a big-endian host wave_write.c:122-136 store the variable's high bytes instead (`WaveWrite.StoredBytesAsWritten`, `WaveWrite.BigEndianHostWritesHighBytes`). `WaveWrite.WriteSamples` and `WaveWrite.WriteWav` inherit this.
- WaveWrite.Wave.constructor: makeWave leaves data, index, size and nSamples uninitialised. The model starts them empty and zero.
- WaveWrite.Wave.SetDuration requires a non-negative byte count. For a negative one, C's malloc receives a huge size_t.
- Two lemmas describe the writer's output (`WaveWrite.WrittenFileReadsBack` and `WaveWrite.EncodedSamplesDecode`). They cover 16-bit mono files, the only kind write_wav produces.

## Findings

| source | as written | input that shows it | evidently intended | confidence | as-written member | corrected member |
|---|---|---|---|---|---|---|
| src/tuning/tune2.c:7-16 | A pair is loaded only when i + 1 < segment_len. With an odd segment_len (M even), XX[segment_len−1] is zero instead of X[w+segment_len−1]. | M = 2: fft_len 2, segment_len 1, xx_len 4, X = [1.0] gives XX = [0, 0, 0, 0] where slide_window gives [1, 0, 0, 0] | each entry of the pair checked on its own, giving the window of src/convolve.h:51-56 | not executed | `Tuning.SlideWindowStride2` with `Tuning.Stride2DropsLastSample` and `Tuning.Stride2LosesInputOfTwoTapFilter` | `Tuning.SlideWindowPairs` |
| src/OLD/wave_read.c:200-205 | The 32-bit decode or-s sign-extended chars, so a low byte of 128 or more sets every bit above it. | bytes 80 00 00 00 (value 128) decode to −128 | mask the three low bytes with 255, as the 16-bit branch does | not executed | `WaveRead.Sample32AsWritten` with `WaveRead.Sample32AsWrittenSmearsSign` | `WaveRead.Sample32` with `WaveRead.Sample32IsLittleEndian` |
| src/OLD/wave_write.c:129-139 | toLittleEndian reverses only the first 2 bytes of a 4-byte int (likewise 1 of a short, 4 of an 8-byte long), and those first bytes are stored. On a big-endian host these are the variable's high bytes. | big-endian host, 16-bit sample value 1: stored as 00 00 instead of 01 00 | the sample's low bytes, least significant first, on any host | not executed | `WaveWrite.StoredBytesAsWritten` with `WaveWrite.BigEndianHostWritesHighBytes` | `WaveWrite.StoredBytes` with `WaveWrite.StoredBytesOnLittleEndianHost` |
| src/OLD/wave_write.c:179-185 | The duration is computed from the RIFF chunk size 36 + 2n rather than the data size 2n. The buffer and subChunk2Size get 36 extra bytes that are never written, and the reader counts n + 18 samples. | numSamples = 1: subChunk2Size 38, read back as 19 samples | duration n / 44100, giving a data size of 2n | not executed | `WaveWrite.DurationAsWritten` with `WaveWrite.DataSizeAsWritten` | `WaveWrite.Duration` with `WaveWrite.DurationGivesDataBytes` (used by `WaveWrite.WriteWav`) |
