/** The legacy WAVE writer: the byte-order helpers, the header makeWaveHeader
    builds, the sizes waveSetDuration records, the bytes waveAddSample appends
    and the clamp of write_wav; and the bytes it writes read back through the
    reader's decoders. The host's byte order is a parameter; the floating-point
    quantisation of samples is a parameter function. */
module WaveWrite {
  import opened CArith
  import opened WaveRead

  /** The byte order of the machine the writer runs on, as isBigEndian finds it. */
  datatype Host = LittleEndianHost | BigEndianHost

  /** A byte string back to front. */
  function Reversed(s: seq<Byte>): (r: seq<Byte>)
    ensures |r| == |s|
    ensures forall i :: 0 <= i < |s| ==> r[i] == s[|s| - 1 - i]
  {
    if s == [] then [] else Reversed(s[1..]) + [s[0]]
  }

  lemma ReversedTwice(s: seq<Byte>)
    ensures Reversed(Reversed(s)) == s
  {
  }

  /** The buffer after its first size bytes are reversed; a size of zero or
      less leaves it alone. */
  function ReversedPrefix(s: seq<Byte>, size: int): (r: seq<Byte>)
    requires size <= |s|
    ensures |r| == |s|
    ensures forall k :: 0 <= k < |s| ==> r[k] == (if k < size then s[size - 1 - k] else s[k])
  {
    if size <= 0 then s else Reversed(s[..size]) + s[size..]
  }

  /** Reversing the same prefix twice gives the buffer back. */
  lemma ReversedPrefixTwice(s: seq<Byte>, size: int)
    requires size <= |s|
    ensures |ReversedPrefix(s, size)| == |s|
    ensures ReversedPrefix(ReversedPrefix(s, size), size) == s
  {
    if size > 0 {
      var t := ReversedPrefix(s, size);
      assert t[..size] == Reversed(s[..size]) && t[size..] == s[size..];
      ReversedTwice(s[..size]);
      assert s[..size] + s[size..] == s;
    }
  }

  /** reverseEndianness: the first size bytes of value reversed through a
      32-byte scratch buffer. */
  method ReverseEndianness(size: int, value: array<Byte>)
    requires size <= 32 && size <= value.Length
    modifies value
    ensures value[..] == ReversedPrefix(old(value[..]), size)
  {
    ghost var src := value[..];
    ghost var rev := ReversedPrefix(src, size);
    var result := new Byte[32];
    var i := 0;
    while i < size
      invariant 0 <= i <= Max(size, 0)
      invariant value[..] == src
      invariant forall k :: 0 <= k < i ==> result[k] == rev[k]
    {
      result[i] := value[size - i - 1];
      i := i + 1;
    }
    i := 0;
    while i < size
      invariant 0 <= i <= Max(size, 0)
      invariant value[..] == rev[..i] + src[i..]
      invariant forall k :: 0 <= k < size ==> result[k] == rev[k]
    {
      value[i] := result[i];
      PrefixStep(rev, src, i);
      i := i + 1;
    }
    assert rev[..Max(size, 0)] + src[Max(size, 0)..] == rev;
  }

  /** One more byte of the target copied over the source. */
  lemma PrefixStep(rev: seq<Byte>, src: seq<Byte>, i: nat)
    requires |rev| == |src| && i < |src|
    ensures (rev[..i] + src[i..])[i := rev[i]] == rev[..i + 1] + src[i + 1..]
  {
  }

  /** The buffer toLittleEndian leaves: reversed exactly on a big-endian host. */
  function LittleEndianOf(host: Host, mem: seq<Byte>, size: int): seq<Byte>
    requires size <= |mem|
  {
    if host.BigEndianHost? then ReversedPrefix(mem, size) else mem
  }

  /** The buffer toBigEndian leaves: reversed exactly on a little-endian host. */
  function BigEndianOf(host: Host, mem: seq<Byte>, size: int): seq<Byte>
    requires size <= |mem|
  {
    if host.LittleEndianHost? then ReversedPrefix(mem, size) else mem
  }

  method ToLittleEndian(host: Host, size: int, value: array<Byte>)
    requires size <= 32 && size <= value.Length
    modifies value
    ensures value[..] == LittleEndianOf(host, old(value[..]), size)
  {
    var isBigEndian := host.BigEndianHost?;
    var needsFix := !((false && isBigEndian) || (true && !isBigEndian));
    if needsFix {
      ReverseEndianness(size, value);
    }
  }

  method ToBigEndian(host: Host, size: int, value: array<Byte>)
    requires size <= 32 && size <= value.Length
    modifies value
    ensures value[..] == BigEndianOf(host, old(value[..]), size)
  {
    var isBigEndian := host.BigEndianHost?;
    var needsFix := !((true && isBigEndian) || (false && !isBigEndian));
    if needsFix {
      ReverseEndianness(size, value);
    }
  }

  /** The n low bytes of v's two's-complement pattern, least significant first. */
  function LeBytes(v: int, n: nat): (r: seq<Byte>)
    ensures |r| == n
    decreases n
  {
    if n == 0 then [] else [v % 256] + LeBytes(v / 256, n - 1)
  }

  /** The n bytes hold v modulo 2^(8n). */
  lemma {:induction false} LeBytesValue(v: int, n: nat)
    ensures LeValue(LeBytes(v, n)) == v % Pow2(8 * n)
    decreases n
  {
    if n > 0 {
      var r := LeBytes(v, n);
      assert r[1..] == LeBytes(v / 256, n - 1);
      LeBytesValue(v / 256, n - 1);
      Pow2Add(8, 8 * (n - 1));
      assert 8 * n == 8 + 8 * (n - 1);
      Pow2Bytes();
      DivModNest(v, 256, Pow2(8 * (n - 1)));
    }
  }

  /** An n-byte variable holding v, as it lies in memory on the host. */
  function InMemory(host: Host, v: int, n: nat): seq<Byte>
  {
    if host.LittleEndianHost? then LeBytes(v, n) else Reversed(LeBytes(v, n))
  }

  /** toLittleEndian over a whole variable leaves its little-endian bytes
      whatever the host, and toBigEndian the reverse. */
  lemma ByteOrderAnyHost(host: Host, v: int, n: nat)
    requires n <= 32
    ensures LittleEndianOf(host, InMemory(host, v, n), n) == LeBytes(v, n)
    ensures BigEndianOf(host, InMemory(host, v, n), n) == Reversed(LeBytes(v, n))
  {
    var le := LeBytes(v, n);
    assert le[..n] == le && le[n..] == [];
    var re := Reversed(le);
    assert re[..n] == re && re[n..] == [];
    ReversedTwice(le);
  }

  /** The bytes a depth-8, 16 or 32 sample variable contributes, as written:
      toLittleEndian reverses only the first width bytes of a variable that
      is typeWidth bytes wide (a short, an int and a long of 8 bytes), and the
      first width bytes of the result are stored. */
  function StoredBytesAsWritten(host: Host, v: int, typeWidth: nat, width: nat): seq<Byte>
    requires width <= typeWidth
  {
    LittleEndianOf(host, InMemory(host, v, typeWidth), width)[..width]
  }

  /** On a big-endian host the int of a 16-bit sample has the value 1 in its
      last byte, and the two bytes written are its two high bytes: 00 00. */
  lemma BigEndianHostWritesHighBytes()
    ensures StoredBytesAsWritten(LittleEndianHost, 1, 4, 2) == [1, 0]
    ensures StoredBytesAsWritten(BigEndianHost, 1, 4, 2) == [0, 0]
  {
    var le := LeBytes(1, 4);
    assert le == [1, 0, 0, 0];
    var be := Reversed(le);
    assert be == [0, 0, 0, 1];
    assert be[..2] == [0, 0];
    assert Reversed([0, 0]) == [0, 0];
  }

  /** The bytes of a sample as intended: its width low bytes, least
      significant first, on any host. */
  function StoredBytes(v: int, width: nat): (r: seq<Byte>)
    ensures |r| == width
  {
    LeBytes(v, width)
  }

  /** On a little-endian host the code as written stores the intended bytes. */
  lemma StoredBytesOnLittleEndianHost(v: int, typeWidth: nat, width: nat)
    requires width <= typeWidth
    ensures StoredBytesAsWritten(LittleEndianHost, v, typeWidth, width) == StoredBytes(v, width)
  {
    LeBytesPrefix(v, typeWidth, width);
  }

  /** The first bytes of a wider little-endian image are the narrower image. */
  lemma {:induction false} LeBytesPrefix(v: int, n: nat, m: nat)
    requires m <= n
    ensures LeBytes(v, n)[..m] == LeBytes(v, m)
    decreases m
  {
    if m > 0 {
      LeBytesPrefix(v / 256, n - 1, m - 1);
      assert LeBytes(v, n)[..m] == [v % 256] + LeBytes(v / 256, n - 1)[..m - 1];
    }
  }

  /** C's conversion of a floating value to an integer type: the fraction
      is dropped, rounding toward zero. */
  function Truncate(r: real): (t: int)
    ensures r >= 0.0 ==> t as real <= r < t as real + 1.0
    ensures r < 0.0 ==> t as real - 1.0 < r <= t as real
  {
    if r >= 0.0 then r.Floor else -((-r).Floor)
  }

  /** The byte count waveSetDuration allocates: the byte rate times the
      duration, truncated. */
  function TotalBytes(byteRate: int, seconds: real): int
  {
    Truncate(byteRate as real * seconds)
  }

  /** The sample count waveSetDuration records: channels times rate times
      the duration, truncated. */
  function SampleCount(numChannels: int, sampleRate: int, seconds: real): int
  {
    Truncate((numChannels * sampleRate) as real * seconds)
  }

  /** The integer waveAddSample stores for a sample in [-1, 1]: offset
      binary 127 + 127x at 8 bits, 32767x at 16 bits, (2^31 - 1)x at 32 bits. */
  function Quantise(bitsPerSample: int, x: real): int
  {
    if bitsPerSample == 8 then Truncate(127.0 + 127.0 * x)
    else if bitsPerSample == 16 then Truncate(32767.0 * x)
    else if bitsPerSample == 32 then Truncate(2147483647.0 * x)
    else 0
  }

  function QuantiseAll(bitsPerSample: int, xs: seq<real>): (qs: seq<int>)
    ensures |qs| == |xs|
  {
    seq(|xs|, k requires 0 <= k < |xs| => Quantise(bitsPerSample, xs[k]))
  }

  /** A 16-bit sample in [-1, 1] is quantised into the short's range, and
      the reader's scaling by 32767 brings it back to within 1/32767 of the
      sample, on the side of zero. */
  lemma Quantise16Error(x: real)
    requires -1.0 <= x <= 1.0
    ensures -32767 <= Quantise(16, x) <= 32767
    ensures var back := Scale(Quantise(16, x), 32767).value;
      Abs(back - x) < 1.0 / 32767.0 && Abs(back) <= Abs(x)
  {
    var q := Quantise(16, x);
    var back := Scale(q, 32767).value;
    assert back * 32767.0 == q as real;
  }

  /** The sample bytes written back to back, one group of width bytes per value. */
  function Encoded(qs: seq<int>, width: nat): (r: seq<Byte>)
    ensures |r| == |qs| * width
  {
    if qs == [] then [] else StoredBytes(qs[0], width) + Encoded(qs[1..], width)
  }

  lemma {:induction false} EncodedSnoc(qs: seq<int>, q: int, width: nat)
    ensures Encoded(qs + [q], width) == Encoded(qs, width) + StoredBytes(q, width)
  {
    if qs != [] {
      assert (qs + [q])[1..] == qs[1..] + [q];
      EncodedSnoc(qs[1..], q, width);
    } else {
      assert [q][1..] == [];
    }
  }

  /** Value k of the sequence sits in bytes k*width .. (k+1)*width. */
  lemma {:induction false} EncodedAt(qs: seq<int>, width: nat, k: nat)
    requires k < |qs|
    ensures (k + 1) * width <= |Encoded(qs, width)|
    ensures Encoded(qs, width)[k * width..(k + 1) * width] == StoredBytes(qs[k], width)
  {
    NextBlockFits(k, |qs|, width);
    if k > 0 {
      EncodedAt(qs[1..], width, k - 1);
      var e := Encoded(qs, width);
      var tail := Encoded(qs[1..], width);
      assert e == StoredBytes(qs[0], width) + tail;
      assert k * width == width + (k - 1) * width;
      assert (k + 1) * width == width + k * width;
      assert e[k * width..(k + 1) * width] == tail[(k - 1) * width..k * width];
    }
  }

  /** Bytes per channel that waveAddSample writes at a bit depth. */
  function SampleWidth(bitsPerSample: int): (w: nat)
    ensures bitsPerSample == 8 || bitsPerSample == 16 || bitsPerSample == 32 ==> w * 8 == bitsPerSample
    ensures !(bitsPerSample == 8 || bitsPerSample == 16 || bitsPerSample == 32) ==> w == 0
  {
    if bitsPerSample == 8 then 1
    else if bitsPerSample == 16 then 2
    else if bitsPerSample == 32 then 4
    else 0
  }

  /** "RIFF", "WAVE", "fmt " and "data" as bytes. */
  const RIFF_ID: seq<Byte> := [0x52, 0x49, 0x46, 0x46]
  const WAVE_ID: seq<Byte> := [0x57, 0x41, 0x56, 0x45]
  const FMT_ID: seq<Byte> := [0x66, 0x6d, 0x74, 0x20]
  const DATA_ID: seq<Byte> := [0x64, 0x61, 0x74, 0x61]

  /** makeWaveHeader: a PCM header with a 16-byte format subchunk and no data
      yet. byteRate and blockAlign follow C's int arithmetic: products wrap,
      quotients truncate, blockAlign is narrowed to a short. */
  function MakeWaveHeader(sampleRate: int, numChannels: int, bitsPerSample: int): (h: WaveHeader)
    requires InInt32(sampleRate) && InInt16(numChannels) && InInt16(bitsPerSample)
    ensures h.chunkId == RIFF_ID && h.format == WAVE_ID && h.subChunk1Id == FMT_ID && h.subChunk2Id == DATA_ID
    ensures h.audioFormat == 1 && h.numChannels == numChannels && h.sampleRate == sampleRate
    ensures h.bitsPerSample == bitsPerSample
    ensures h.chunkSize == 36 && h.subChunk1Size == 16 && h.subChunk2Size == 0
  {
    WaveHeader(RIFF_ID, 4 + 8 + 16 + 8 + 0, WAVE_ID,
      FMT_ID, 16,
      1, numChannels,
      sampleRate, CDiv(Wrap32(Wrap32(sampleRate * numChannels) * bitsPerSample), 8),
      Wrap16(CDiv(numChannels * bitsPerSample, 8)), bitsPerSample,
      DATA_ID, 0)
  }

  /** With non-negative arguments whose products fit an int, blockAlign is
      the frame size in bytes and byteRate the bytes per second, both
      truncated; with a whole number of bytes per frame, byteRate is also
      sampleRate frames of blockAlign. */
  lemma MakeWaveHeaderRates(sampleRate: int, numChannels: int, bitsPerSample: int)
    requires 0 <= sampleRate && 0 <= numChannels && 0 <= bitsPerSample
    requires sampleRate * numChannels * bitsPerSample < TWO_31 && numChannels * bitsPerSample < TWO_15
    requires InInt32(sampleRate) && InInt16(numChannels) && InInt16(bitsPerSample)
    ensures var h := MakeWaveHeader(sampleRate, numChannels, bitsPerSample);
      h.blockAlign == numChannels * bitsPerSample / 8
      && h.byteRate == sampleRate * numChannels * bitsPerSample / 8
    ensures var h := MakeWaveHeader(sampleRate, numChannels, bitsPerSample);
      (numChannels * bitsPerSample) % 8 == 0 ==> h.byteRate == sampleRate * h.blockAlign
  {
    var frameBits := numChannels * bitsPerSample;
    MulMonotone(numChannels, 0, bitsPerSample);
    MulMonotone(sampleRate, 0, numChannels);
    MulMonotone(sampleRate * numChannels, 0, bitsPerSample);
    if bitsPerSample > 0 {
      MulMonotone(sampleRate * numChannels, 1, bitsPerSample);
    }
    assert sampleRate * numChannels * bitsPerSample == sampleRate * frameBits;
    if frameBits % 8 == 0 {
      var b := frameBits / 8;
      assert frameBits == 8 * b;
      assert sampleRate * frameBits == 8 * (sampleRate * b);
    }
  }

  /** The 44 bytes waveToFile writes for a header: every number little-endian
      after the toLittleEndian calls, fields in declaration order with no
      padding between them. */
  function HeaderBytes(h: WaveHeader): (r: seq<Byte>)
    requires |h.chunkId| == 4 && |h.format| == 4 && |h.subChunk1Id| == 4 && |h.subChunk2Id| == 4
    ensures |r| == 44
  {
    RiffBytes(h) + FmtBytes(h) + DataBytes(h)
  }

  /** Bytes 0..12: the RIFF chunk id, its size and the WAVE format tag. */
  function RiffBytes(h: WaveHeader): (r: seq<Byte>)
    requires |h.chunkId| == 4 && |h.format| == 4
    ensures |r| == 12
  {
    h.chunkId + LeBytes(h.chunkSize, 4) + h.format
  }

  /** Bytes 12..36: the format subchunk. */
  function FmtBytes(h: WaveHeader): (r: seq<Byte>)
    requires |h.subChunk1Id| == 4
    ensures |r| == 24
  {
    h.subChunk1Id + LeBytes(h.subChunk1Size, 4)
    + LeBytes(h.audioFormat, 2) + LeBytes(h.numChannels, 2)
    + LeBytes(h.sampleRate, 4) + LeBytes(h.byteRate, 4)
    + LeBytes(h.blockAlign, 2) + LeBytes(h.bitsPerSample, 2)
  }

  /** Bytes 36..44: the data subchunk's id and size. */
  function DataBytes(h: WaveHeader): (r: seq<Byte>)
    requires |h.subChunk2Id| == 4
    ensures |r| == 8
  {
    h.subChunk2Id + LeBytes(h.subChunk2Size, 4)
  }

  /** A header whose fields fit the C types and whose format subchunk is the
      16 bytes the writer always declares. */
  predicate Writable(h: WaveHeader)
  {
    |h.chunkId| == 4 && |h.format| == 4 && |h.subChunk1Id| == 4 && |h.subChunk2Id| == 4
    && h.subChunk1Size == 16
    && InInt32(h.chunkSize) && InInt32(h.sampleRate) && InInt32(h.byteRate) && InInt32(h.subChunk2Size)
    && InInt16(h.audioFormat) && InInt16(h.numChannels) && InInt16(h.blockAlign) && InInt16(h.bitsPerSample)
  }

  /** A four-byte int written by the writer reads back through to_big_endian. */
  lemma IntRoundTrip(v: int)
    requires InInt32(v)
    ensures WaveRead.ToBigEndian(LeBytes(v, 4)) == v
  {
    ToBigEndianIsLittleEndian(LeBytes(v, 4));
    LeBytesValue(v, 4);
    Pow2Bytes();
    WrapOfMod(v);
  }

  /** A two-byte short written by the writer reads back through b0 | (b1 << 8). */
  lemma ShortRoundTrip(f: seq<Byte>, off: nat, v: int)
    requires InInt16(v) && off + 2 <= |f| && f[off..off + 2] == LeBytes(v, 2)
    ensures ReadShort(f, off) == v
  {
    ReadShortIsLittleEndian(f, off);
    LeBytesValue(v, 2);
    Pow2Bytes();
    LeValue2(f[off..off + 2]);
    WrapOfMod(v);
  }

  lemma IntFieldRoundTrip(f: seq<Byte>, off: nat, v: int)
    requires InInt32(v) && off + 4 <= |f| && f[off..off + 4] == LeBytes(v, 4)
    ensures ReadInt(f, off) == v
  {
    IntRoundTrip(v);
  }

  /** A slice of a part that sits at off in f is the same slice of f. */
  lemma SliceWithin(f: seq<Byte>, off: nat, part: seq<Byte>, a: nat, b: nat)
    requires off + |part| <= |f| && f[off..off + |part|] == part && a <= b <= |part|
    ensures f[off + a..off + b] == part[a..b]
  {
    assert forall k :: off + a <= k < off + b ==> f[k] == part[k - off];
  }

  /** Each field of the format subchunk where FmtBytes puts it. */
  lemma FmtSlices(h: WaveHeader)
    requires |h.subChunk1Id| == 4
    ensures var fmt := FmtBytes(h);
      fmt[0..4] == h.subChunk1Id && fmt[4..8] == LeBytes(h.subChunk1Size, 4)
      && fmt[8..10] == LeBytes(h.audioFormat, 2) && fmt[10..12] == LeBytes(h.numChannels, 2)
      && fmt[12..16] == LeBytes(h.sampleRate, 4) && fmt[16..20] == LeBytes(h.byteRate, 4)
      && fmt[20..22] == LeBytes(h.blockAlign, 2) && fmt[22..24] == LeBytes(h.bitsPerSample, 2)
  {
  }

  /** Slices of the header bytes, field by field. */
  lemma HeaderSlices(h: WaveHeader, rest: seq<Byte>)
    requires Writable(h)
    ensures var f := HeaderBytes(h) + rest;
      f[0..4] == h.chunkId && f[4..8] == LeBytes(h.chunkSize, 4) && f[8..12] == h.format
      && f[12..16] == h.subChunk1Id && f[16..20] == LeBytes(h.subChunk1Size, 4)
      && f[20..22] == LeBytes(h.audioFormat, 2) && f[22..24] == LeBytes(h.numChannels, 2)
      && f[24..28] == LeBytes(h.sampleRate, 4) && f[28..32] == LeBytes(h.byteRate, 4)
      && f[32..34] == LeBytes(h.blockAlign, 2) && f[34..36] == LeBytes(h.bitsPerSample, 2)
      && f[36..40] == h.subChunk2Id && f[40..44] == LeBytes(h.subChunk2Size, 4)
  {
    var f := HeaderBytes(h) + rest;
    var riff, fmt, data := RiffBytes(h), FmtBytes(h), DataBytes(h);
    assert f[0..12] == riff && f[12..36] == fmt && f[36..44] == data;
    SliceWithin(f, 0, riff, 0, 4);
    SliceWithin(f, 0, riff, 4, 8);
    SliceWithin(f, 0, riff, 8, 12);
    FmtSlices(h);
    SliceWithin(f, 12, fmt, 0, 4);
    SliceWithin(f, 12, fmt, 4, 8);
    SliceWithin(f, 12, fmt, 8, 10);
    SliceWithin(f, 12, fmt, 10, 12);
    SliceWithin(f, 12, fmt, 12, 16);
    SliceWithin(f, 12, fmt, 16, 20);
    SliceWithin(f, 12, fmt, 20, 22);
    SliceWithin(f, 12, fmt, 22, 24);
    SliceWithin(f, 36, data, 0, 4);
    SliceWithin(f, 36, data, 4, 8);
  }

  /** The header the writer emits parses back to itself, and the samples
      start right after it. */
  lemma HeaderRoundTrip(h: WaveHeader, rest: seq<Byte>)
    requires Writable(h)
    ensures ParseHeader(HeaderBytes(h) + rest) == Some(h)
    ensures HeaderLength(h.subChunk1Size) == |HeaderBytes(h)|
  {
    var f := HeaderBytes(h) + rest;
    HeaderSlices(h, rest);
    IntFieldRoundTrip(f, 16, h.subChunk1Size);
    IntFieldRoundTrip(f, 4, h.chunkSize);
    IntFieldRoundTrip(f, 24, h.sampleRate);
    IntFieldRoundTrip(f, 28, h.byteRate);
    IntFieldRoundTrip(f, 40, h.subChunk2Size);
    ShortRoundTrip(f, 20, h.audioFormat);
    ShortRoundTrip(f, 22, h.numChannels);
    ShortRoundTrip(f, 32, h.blockAlign);
    ShortRoundTrip(f, 34, h.bitsPerSample);
  }

  /** A 16-bit sample written for v reads back as v narrowed to a short. */
  lemma Sample16RoundTrip(v: int)
    ensures ChannelValue(StoredBytes(v, 2), 2) == Wrap16(v)
  {
    var b := StoredBytes(v, 2);
    assert b[..2] == b;
    Sample16IsLittleEndian(b);
    LeBytesValue(v, 2);
    Pow2Bytes();
    WrapOfMod(v);
  }

  /** A 32-bit sample written for v reads back as v narrowed to an int
      through the corrected 32-bit decode. */
  lemma Sample32RoundTrip(v: int)
    ensures ChannelValue(StoredBytes(v, 4), 4) == Wrap32(v)
  {
    var b := StoredBytes(v, 4);
    assert b[..4] == b;
    Sample32IsLittleEndian(b);
    LeBytesValue(v, 4);
    Pow2Bytes();
    WrapOfMod(v);
  }

  /** The Wave record of the writer: the header, the data buffer, the write
      position and the sizes. */
  class Wave {
    var header: WaveHeader
    var data: array<Byte>
    var index: int
    var size: int
    var nSamples: int

    /** makeWave: a fresh header; the buffer stays empty until waveSetDuration. */
    constructor (sampleRate: int, numChannels: int, bitsPerSample: int)
      requires InInt32(sampleRate) && InInt16(numChannels) && InInt16(bitsPerSample)
      ensures header == MakeWaveHeader(sampleRate, numChannels, bitsPerSample)
      ensures data.Length == 0 && index == 0 && size == 0 && nSamples == 0
    {
      header := MakeWaveHeader(sampleRate, numChannels, bitsPerSample);
      data := new Byte[0];
      index := 0;
      size := 0;
      nSamples := 0;
    }

    /** waveSetDuration: a buffer of byteRate * seconds bytes (truncated),
      the write position back at the start, the sample count, and the two
      size fields of the header narrowed to int. */
    method SetDuration(seconds: real)
      requires TotalBytes(header.byteRate, seconds) >= 0
      modifies this
      ensures fresh(data) && data.Length == TotalBytes(old(header.byteRate), seconds)
      ensures index == 0 && size == data.Length
      ensures nSamples == SampleCount(old(header.numChannels), old(header.sampleRate), seconds)
      ensures header == old(header).(chunkSize := Wrap32(36 + size), subChunk2Size := Wrap32(size))
      ensures size + 36 < TWO_31 ==>
        header.chunkSize == 36 + header.subChunk2Size && size == header.subChunk2Size
    {
      var totalBytes := TotalBytes(header.byteRate, seconds);
      data := new Byte[totalBytes];
      index := 0;
      size := totalBytes;
      nSamples := SampleCount(header.numChannels, header.sampleRate, seconds);
      header := header.(chunkSize := Wrap32(4 + 8 + 16 + 8 + totalBytes));
      header := header.(subChunk2Size := Wrap32(totalBytes));
    }

    /** waveAddSample: each channel's sample quantised for the bit depth and
      its bytes written at index, for depths 8, 16 and 32; nothing for any
      other depth.  The bytes are the low ones, least significant first, as
      a little-endian host stores them (StoredBytes). */
    method AddSample(samples: seq<real>)
      requires |samples| >= header.numChannels
      requires 0 <= index && index + Max(header.numChannels, 0) * SampleWidth(header.bitsPerSample) <= data.Length
      modifies this`index, data
      ensures index == old(index) + Max(header.numChannels, 0) * SampleWidth(header.bitsPerSample)
      ensures data[..] == Splice(old(data[..]), old(index),
        Encoded(QuantiseAll(header.bitsPerSample, samples[..Max(header.numChannels, 0)]),
                SampleWidth(header.bitsPerSample)))
    {
      var width := SampleWidth(header.bitsPerSample);
      ghost var channels := Max(header.numChannels, 0);
      ghost var quantised := QuantiseAll(header.bitsPerSample, samples[..channels]);
      ghost var start := index;
      if width == 0 {
        SpliceEmpty(data[..], index, Encoded(quantised, width));
        return;
      }
      var i := 0;
      while i < header.numChannels
        invariant 0 <= i <= channels
        invariant index == start + i * width
        invariant data[..] == Splice(old(data[..]), start, Encoded(quantised[..i], width))
      {
        NextBlockFits(i, channels, width);
        var sample := Quantise(header.bitsPerSample, samples[i]);
        PutBytes(data, index, StoredBytes(sample, width));
        SpliceTwice(old(data[..]), start, Encoded(quantised[..i], width), StoredBytes(sample, width));
        EncodedSnoc(quantised[..i], sample, width);
        assert quantised[..i + 1] == quantised[..i] + [sample];
        index := index + width;
        i := i + 1;
      }
      assert quantised[..channels] == quantised;
    }
  }

  /** Writing over the whole of s leaves the bytes written. */
  lemma SpliceWhole(s: seq<Byte>, b: seq<Byte>)
    requires |b| == |s|
    ensures Splice(s, 0, b) == b
  {
  }

  /** s with the bytes b written over it from position at. */
  function Splice(s: seq<Byte>, at: nat, b: seq<Byte>): (r: seq<Byte>)
    requires at + |b| <= |s|
    ensures |r| == |s|
    ensures forall k :: 0 <= k < |s| ==> r[k] == (if at <= k < at + |b| then b[k - at] else s[k])
  {
    s[..at] + b + s[at + |b|..]
  }

  lemma SpliceEmpty(s: seq<Byte>, at: nat, b: seq<Byte>)
    requires at <= |s| && |b| == 0
    ensures Splice(s, at, b) == s
  {
  }

  /** Writing b and then c right after it is writing b + c. */
  lemma SpliceTwice(s: seq<Byte>, at: nat, b: seq<Byte>, c: seq<Byte>)
    requires at + |b| + |c| <= |s|
    ensures Splice(Splice(s, at, b), at + |b|, c) == Splice(s, at, b + c)
  {
  }

  /** The stores of one channel's bytes at position at. */
  method PutBytes(data: array<Byte>, at: nat, bytes: seq<Byte>)
    requires at + |bytes| <= data.Length
    modifies data
    ensures data[..] == Splice(old(data[..]), at, bytes)
  {
    var k := 0;
    while k < |bytes|
      invariant 0 <= k <= |bytes|
      invariant data[..] == Splice(old(data[..]), at, bytes[..k])
    {
      data[at + k] := bytes[k];
      k := k + 1;
    }
    assert bytes[..k] == bytes;
  }

  /** The clamp of write_wav: a sample above 1 becomes 1, below -1 becomes -1. */
  function Clamp(x: real): (c: real)
    ensures -1.0 <= c <= 1.0
    ensures -1.0 <= x <= 1.0 ==> c == x
  {
    if x > 1.0 then 1.0 else if x < -1.0 then -1.0 else x
  }

  /** The clamped sample is the point of [-1, 1] nearest to the input. */
  lemma ClampIsNearest(x: real, y: real)
    requires -1.0 <= y <= 1.0
    ensures Abs(Clamp(x) - x) <= Abs(y - x)
  {
  }

  /** The sample loop of write_wav on its mono 16-bit wave: each sample is
      clamped in place and then added as a one-channel frame. */
  method WriteSamples(wave: Wave, sampleData: array<real>, numSamples: int)
    requires wave.header.numChannels == 1 && wave.header.bitsPerSample == 16
    requires numSamples <= sampleData.Length
    requires 0 <= wave.index && wave.index + 2 * Max(numSamples, 0) <= wave.data.Length
    modifies sampleData, wave`index, wave.data
    ensures sampleData[..] == ClampAll(old(sampleData[..])[..Max(numSamples, 0)]) + old(sampleData[..])[Max(numSamples, 0)..]
    ensures wave.index == old(wave.index) + 2 * Max(numSamples, 0)
    ensures wave.data[..] == Splice(old(wave.data[..]), old(wave.index),
      Encoded(Written(old(sampleData[..Max(numSamples, 0)])), 2))
  {
    ghost var s0 := wave.data[..];
    ghost var start := wave.index;
    ghost var input := sampleData[..];
    ghost var n := Max(numSamples, 0);
    var i := 0;
    while i < numSamples
      invariant 0 <= i <= n
      invariant wave.index == start + 2 * i
      invariant sampleData[..] == ClampAll(input[..i]) + input[i..]
      invariant wave.data[..] == Splice(s0, start, Encoded(Written(input[..i]), 2))
    {
      if sampleData[i] > 1.0 {
        sampleData[i] := 1.0;
      } else if sampleData[i] < -1.0 {
        sampleData[i] := -1.0;
      }
      ClampStep(input, i);
      ghost var clamped := sampleData[..];
      ghost var before := wave.data[..];
      var frameData := [sampleData[i]];
      ghost var bytes := Encoded(QuantiseAll(16, [Clamp(input[i])]), 2);
      assert frameData[..Max(wave.header.numChannels, 0)] == [Clamp(input[i])];
      assert QuantiseAll(wave.header.bitsPerSample, frameData[..Max(wave.header.numChannels, 0)])
        == QuantiseAll(16, [Clamp(input[i])]);
      assert SampleWidth(wave.header.bitsPerSample) == 2;
      assert Encoded(QuantiseAll(wave.header.bitsPerSample, frameData[..Max(wave.header.numChannels, 0)]),
                     SampleWidth(wave.header.bitsPerSample)) == bytes;
      ghost var at := wave.index;
      wave.AddSample(frameData);
      assert sampleData[..] == clamped;
      WrittenStep(s0, start, input, i, before, wave.data[..]);
      i := i + 1;
    }
    assert input[..n] == old(sampleData[..n]);
  }

  lemma ClampStep(input: seq<real>, i: nat)
    requires i < |input|
    ensures (ClampAll(input[..i]) + input[i..])[i := Clamp(input[i])] == ClampAll(input[..i + 1]) + input[i + 1..]
  {
  }

  /** Each sample clamped. */
  function ClampAll(xs: seq<real>): (cs: seq<real>)
    ensures |cs| == |xs|
  {
    seq(|xs|, k requires 0 <= k < |xs| => Clamp(xs[k]))
  }

  /** The 16-bit values write_wav stores for the given input samples. */
  function Written(xs: seq<real>): seq<int>
  {
    QuantiseAll(16, ClampAll(xs))
  }

  /** Writing sample i's bytes after those of the first i samples gives those
      of the first i + 1. */
  lemma WrittenStep(s: seq<Byte>, start: nat, input: seq<real>, i: nat, before: seq<Byte>, after: seq<Byte>)
    requires i < |input| && start + 2 * (i + 1) <= |s|
    requires before == Splice(s, start, Encoded(Written(input[..i]), 2))
    requires after == Splice(before, start + 2 * i, Encoded(QuantiseAll(16, [Clamp(input[i])]), 2))
    ensures after == Splice(s, start, Encoded(Written(input[..i + 1]), 2))
  {
    var done := Written(input[..i]);
    var q := Quantise(16, Clamp(input[i]));
    assert Encoded(QuantiseAll(16, [Clamp(input[i])]), 2) == StoredBytes(q, 2) by {
      assert QuantiseAll(16, [Clamp(input[i])]) == [q];
    }
    SpliceTwice(s, start, Encoded(done, 2), StoredBytes(q, 2));
    EncodedSnoc(done, q, 2);
    assert Written(input[..i + 1]) == done + [q];
  }

  /** The header write_wav's wave carries once its data holds totalBytes bytes. */
  function WrittenHeader(totalBytes: int): (h: WaveHeader)
    requires 0 <= totalBytes && 36 + totalBytes < TWO_31
    ensures Writable(h) && h.audioFormat == 1 && h.numChannels == 1 && h.bitsPerSample == 16
    ensures h.sampleRate == 44100 && h.byteRate == 88200 && h.blockAlign == 2
    ensures h.subChunk2Size == totalBytes && h.chunkSize == 36 + totalBytes
  {
    MakeWaveHeader(44100, 1, 16).(chunkSize := 36 + totalBytes, subChunk2Size := totalBytes)
  }

  /** makeWave's header with the sizes waveSetDuration records for n samples. */
  lemma WrittenHeaderSized(n: nat)
    requires 36 + 2 * n < TWO_31
    ensures var h := MakeWaveHeader(44100, 1, 16);
      h.byteRate == 88200 && h.numChannels == 1 && h.sampleRate == 44100
      && h.(chunkSize := Wrap32(36 + 2 * n), subChunk2Size := Wrap32(2 * n)) == WrittenHeader(2 * n)
  {
  }

  /** write_wav's duration in exact arithmetic, as written: the RIFF chunk
      size (36 header bytes after the size field plus 2 bytes per sample)
      over the byte rate of its mono 16-bit stream at 44100 Hz. */
  function DurationAsWritten(numSamples: int): real
  {
    (36 + numSamples * 1 * 16 / 8) as real / (44100.0 * 1.0 * 16.0 / 8.0)
  }

  /** With that duration the data buffer and the data subchunk size come out
      36 bytes longer than the samples, and the reader counts 18 samples more
      than were written. */
  lemma DataSizeAsWritten(numSamples: nat)
    requires 36 + 2 * numSamples + 36 < TWO_31
    ensures TotalBytes(88200, DurationAsWritten(numSamples)) == 2 * numSamples + 36
    ensures SampleCount(1, 44100, DurationAsWritten(numSamples)) == numSamples + 18
    ensures NumSamples(WrittenHeader(2 * numSamples + 36)) == Some(numSamples + 18)
  {
    assert 88200.0 * DurationAsWritten(numSamples) == (2 * numSamples + 36) as real;
    assert 44100.0 * DurationAsWritten(numSamples) == (numSamples + 18) as real;
  }

  /** The evidently intended duration: the samples' count over the rate. */
  function Duration(numSamples: int): real
  {
    numSamples as real / 44100.0
  }

  /** With it the buffer holds exactly the samples' bytes, the sample count
      is the number of samples, and the reader counts them all. */
  lemma DurationGivesDataBytes(numSamples: nat)
    requires 36 + 2 * numSamples < TWO_31
    ensures TotalBytes(88200, Duration(numSamples)) == 2 * numSamples
    ensures SampleCount(1, 44100, Duration(numSamples)) == numSamples
    ensures NumSamples(WrittenHeader(2 * numSamples)) == Some(numSamples)
  {
    assert 88200.0 * Duration(numSamples) == (2 * numSamples) as real;
    assert 44100.0 * Duration(numSamples) == numSamples as real;
  }

  /** write_wav with the corrected duration: a mono 16-bit wave at 44100 Hz
      whose data is the quantised clamped samples, the samples clamped in
      place. The file bytes are the header's bytes followed by the data. */
  method WriteWav(sampleData: array<real>, numSamples: int) returns (wave: Wave)
    requires 0 <= numSamples <= sampleData.Length && 36 + 2 * numSamples < TWO_31
    modifies sampleData
    ensures fresh(wave) && fresh(wave.data)
    ensures wave.header == WrittenHeader(2 * numSamples)
    ensures wave.index == 2 * numSamples && wave.size == 2 * numSamples && wave.nSamples == numSamples
    ensures sampleData[..] == ClampAll(old(sampleData[..])[..numSamples]) + old(sampleData[..])[numSamples..]
    ensures wave.data[..] == Encoded(Written(old(sampleData[..numSamples])), 2)
  {
    var sampleRate := 44100;
    wave := new Wave(sampleRate, 1, 16);
    var duration := Duration(numSamples);
    DurationGivesDataBytes(numSamples);
    WrittenHeaderSized(numSamples);
    wave.SetDuration(duration);
    assert wave.data.Length == 2 * numSamples && wave.header == WrittenHeader(2 * numSamples);
    ghost var empty := wave.data[..];
    WriteSamples(wave, sampleData, numSamples);
    SpliceWhole(empty, Encoded(Written(old(sampleData[..numSamples])), 2));
  }

  /** Sample k of a written data block decodes to the k-th stored value. */
  lemma WrittenFrameDecodes(qs: seq<int>, k: nat)
    requires k < |qs| && -32767 <= qs[k] <= 32767
    ensures var frames := Frames(Encoded(qs, 2), 2, |qs|);
      |frames| == |qs| && FrameFits(frames[k], 2) && ChannelValue(frames[k], 2) == qs[k]
  {
    var enc := Encoded(qs, 2);
    FramesCount(enc, 2, |qs|);
    DivModUnique(|enc|, 2, |qs|, 0);
    FramesAt(enc, 2, |qs|, k);
    EncodedAt(qs, 2, k);
    Sample16RoundTrip(qs[k]);
  }

  /** extract_wav on write_wav's header followed by n samples' bytes takes
      the PCM branch with a 2-byte frame, n samples and the bytes after the
      header. */
  lemma ExtractWrittenFile(n: nat, enc: seq<Byte>)
    requires 36 + 2 * n < TWO_31 && |enc| == 2 * n
    ensures var h := WrittenHeader(2 * n);
      FrameSize(h) == 2 && BytesInChannel(h) == 2
      && Extract(Some(HeaderBytes(h) + enc)) == Some(WaveData(n, PcmSamples(enc, h, n)))
  {
    var h := WrittenHeader(2 * n);
    var f := HeaderBytes(h) + enc;
    HeaderRoundTrip(h, enc);
    DurationGivesDataBytes(n);
    assert FrameSize(h) == 2 && BytesInChannel(h) == 2;
    assert f[HeaderLength(h.subChunk1Size)..] == enc;
  }

  /** The sample extract_wav stores for value k of a written block. */
  lemma WrittenSampleAt(qs: seq<int>, k: nat)
    requires k < |qs| && -32767 <= qs[k] <= 32767
    ensures var frames := Frames(Encoded(qs, 2), 2, |qs|);
      AllFit(frames, 2) && SampleData(frames, |qs|, 2, 32767)[k] == Scale(qs[k], 32767)
  {
    var frames := Frames(Encoded(qs, 2), 2, |qs|);
    WrittenFrameDecodes(qs, k);
    assert AllFit(frames, 2);
  }

  /** The samples extract_wav stores for a block of 16-bit values in the
      short's symmetric range: each value over 32767. */
  lemma EncodedSamplesDecode(qs: seq<int>)
    requires forall k :: 0 <= k < |qs| ==> -32767 <= qs[k] <= 32767
    ensures var frames := Frames(Encoded(qs, 2), 2, |qs|);
      AllFit(frames, 2)
      && forall k :: 0 <= k < |qs| ==>
        SampleData(frames, |qs|, 2, 32767)[k] == Scale(qs[k], 32767)
  {
    var frames := Frames(Encoded(qs, 2), 2, |qs|);
    assert AllFit(frames, 2);
    forall k | 0 <= k < |qs|
      ensures SampleData(frames, |qs|, 2, 32767)[k] == Scale(qs[k], 32767)
    {
      WrittenSampleAt(qs, k);
    }
  }

  /** The data block of n written samples decodes, sample by sample, to the
      stored 16-bit values over 32767. */
  lemma WrittenSamplesDecode(xs: seq<real>)
    requires 36 + 2 * |xs| < TWO_31
    ensures var qs := Written(xs);
      var p := PcmSamples(Encoded(qs, 2), WrittenHeader(2 * |xs|), |xs|);
      p.Some? && |p.value| == |xs|
      && forall k :: 0 <= k < |xs| ==> p.value[k] == Scale(qs[k], 32767)
  {
    var qs := Written(xs);
    forall k | 0 <= k < |qs|
      ensures -32767 <= qs[k] <= 32767
    {
      Quantise16Error(Clamp(xs[k]));
    }
    EncodedSamplesDecode(qs);
    ExtractWrittenFile(|xs|, Encoded(qs, 2));
  }

  /** A file of the header and data write_wav produces reads back, through
      extract_wav, as the written sample count and each sample's 16-bit
      value over 32767 (within 1/32767 of the clamped input, by
      Quantise16Error). */
  lemma WrittenFileReadsBack(xs: seq<real>)
    requires 36 + 2 * |xs| < TWO_31
    ensures var qs := Written(xs);
      var r := Extract(Some(HeaderBytes(WrittenHeader(2 * |xs|)) + Encoded(qs, 2)));
      r.Some? && r.value.length == |xs| && r.value.sampleData.Some? && |r.value.sampleData.value| == |xs|
      && forall k :: 0 <= k < |xs| ==> r.value.sampleData.value[k] == Scale(qs[k], 32767)
  {
    ExtractWrittenFile(|xs|, Encoded(Written(xs), 2));
    WrittenSamplesDecode(xs);
  }
}
