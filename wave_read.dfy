/** The legacy RIFF/WAVE reader: the little-endian field decoder, the
    format-code table, the header layout, the frame arithmetic and the PCM
    sample loop of extract_wav. The file is a byte sequence; fopen, fread and
    printing are not modelled beyond the bytes a read delivers. */
module WaveRead {
  import opened CArith

  /** A byte of the file, as the reader's unsigned char buffers hold it. */
  type Byte = b: int | 0 <= b < 256

  datatype Option<T> = None | Some(value: T)

  /** The value of a `char` holding b, on a platform where char is signed. */
  function SignedChar(b: Byte): (v: int)
    ensures -128 <= v < 128 && Bits32(v) % 256 == b
    ensures v < 0 <==> b >= 128
  {
    if b < 128 then b else b - 256
  }

  /** Little-endian value of a byte string: the first byte is the least significant. */
  function LeValue(s: seq<Byte>): nat
  {
    if |s| == 0 then 0 else s[0] + 256 * LeValue(s[1..])
  }

  lemma LeValue2(s: seq<Byte>)
    requires |s| == 2
    ensures LeValue(s) == s[0] as int + 256 * (s[1] as int)
  {
    assert LeValue(s[1..][1..]) == 0;
  }

  lemma LeValue4(s: seq<Byte>)
    requires |s| == 4
    ensures LeValue(s) == s[0] as int + 256 * (s[1] as int) + 65536 * (s[2] as int) + 16777216 * (s[3] as int)
  {
    var t := s[1..];
    assert LeValue(t[1..][1..][1..]) == 0;
    assert LeValue(t[1..][1..]) == s[3];
    assert LeValue(t[1..]) == s[2] as int + 256 * (s[3] as int);
  }

  /** Bytes b0, b1 and b2 or-ed together at bit offsets 0, 8 and 16, from
      operands whose patterns hold exactly those bytes there. */
  lemma AssembleLow(b0: int, y1: int, b1: int, y2: int, b2: int)
    requires 0 <= b0 < 256 && 0 <= b1 < 256 && 0 <= b2 < 256
    requires Bits32(y1) == b1 * 256 && Bits32(y2) == b2 * 65536
    ensures COr(COr(b0, y1), y2) == b0 + 256 * b1 + 65536 * b2
  {
    Pow2Bytes();
    COrSmall(b0, y1, b1, 8);
    COrSmall(b0 + 256 * b1, y2, b2, 16);
  }

  /** Unsigned bytes shifted to bits 8 and 16 keep their values. */
  lemma ShiftedLow(b: Byte)
    ensures Bits32(CShl(b, 8)) == b as int * 256 && Bits32(CShl(b, 16)) == b as int * 65536
  {
    Pow2Bytes();
    assert CShl(b, 8) == b as int * 256;
    assert CShl(b, 16) == b as int * 65536;
  }

  /** The top byte b3 shifted to bit 24, from an unsigned or a signed char:
      either way the pattern holds b3 in its top byte. */
  lemma ShiftedTop(b3: Byte)
    ensures Bits32(CShl(b3, 24)) == b3 as int * 16777216
    ensures Bits32(CShl(SignedChar(b3), 24)) == b3 as int * 16777216
  {
    Pow2Bytes();
    Wrap32Bits(b3 as int * 16777216);
    var s := SignedChar(b3);
    assert InInt32(s * 16777216);
    if b3 >= 128 {
      assert s * 16777216 + TWO_32 == b3 as int * 16777216;
    }
  }

  /** Three low bytes or-ed into place under a top byte's pattern give the
      little-endian value as a 32-bit int. */
  lemma Assemble32(b0: Byte, b1: Byte, b2: Byte, b3: Byte, y3: int)
    requires Bits32(y3) == b3 as int * 16777216
    ensures COr(COr(COr(b0, CShl(b1, 8)), CShl(b2, 16)), y3) == Wrap32(LeValue([b0, b1, b2, b3]))
  {
    ShiftedLow(b1);
    ShiftedLow(b2);
    AssembleLow(b0, CShl(b1, 8), b1, CShl(b2, 16), b2);
    var x2 := b0 as int + 256 * (b1 as int) + 65536 * (b2 as int);
    var inner := COr(COr(b0, CShl(b1, 8)), CShl(b2, 16));
    assert inner == x2;
    COrTopByte(x2, y3, b3);
    var top := if b3 >= 128 then TWO_32 else 0;
    assert COr(inner, y3) == x2 + b3 as int * 16777216 - top;
    LeValue4([b0, b1, b2, b3]);
    var v := LeValue([b0, b1, b2, b3]);
    assert v == x2 + b3 as int * 16777216;
    Wrap32Unsigned(v);
    assert Wrap32(v) == v - top;
  }

  /** to_big_endian: despite its name it assembles four bytes least
      significant first. */
  function ToBigEndian(buff: seq<Byte>): int
    requires |buff| == 4
  {
    COr(COr(COr(buff[0], CShl(buff[1], 8)), CShl(buff[2], 16)), CShl(buff[3], 24))
  }

  /** The decoded field is the little-endian value of the four bytes, read
      as a 32-bit int: exact when the top byte is below 128. */
  lemma ToBigEndianIsLittleEndian(buff: seq<Byte>)
    requires |buff| == 4
    ensures ToBigEndian(buff) == Wrap32(LeValue(buff))
    ensures buff[3] < 128 ==> ToBigEndian(buff) == LeValue(buff)
  {
    ShiftedTop(buff[3]);
    Assemble32(buff[0], buff[1], buff[2], buff[3], CShl(buff[3], 24));
    assert [buff[0], buff[1], buff[2], buff[3]] == buff;
    LeValue4(buff);
  }

  /** The audio format codes that get_format_name knows. */
  predicate KnownFormat(typeCode: int)
  {
    typeCode == 1 || typeCode == 6 || typeCode == 7
  }

  /** get_format_name: the contents of the caller's name buffer after the
      call. A known code overwrites it with the code's name; any other code
      leaves it as it was. */
  function FormatName(typeCode: int, buffer: string): (name: string)
    ensures KnownFormat(typeCode) ==> name in ["PCM", "A-law", "Mu-law"]
    ensures !KnownFormat(typeCode) ==> name == buffer
  {
    match typeCode
    case 1 => "PCM"
    case 6 => "A-law"
    case 7 => "Mu-law"
    case _ => buffer
  }

  /** Distinct known codes get distinct names, whatever the buffer held. */
  lemma FormatNameDeterminesCode(c1: int, c2: int, b1: string, b2: string)
    requires KnownFormat(c1) && KnownFormat(c2)
    requires FormatName(c1, b1) == FormatName(c2, b2)
    ensures c1 == c2
  {
    assert "PCM"[0] != "A-law"[0] && "PCM"[0] != "Mu-law"[0] && "A-law"[0] != "Mu-law"[0];
  }

  /** The header fields, in the order the file stores them. */
  datatype WaveHeader = WaveHeader(
    chunkId: seq<Byte>, chunkSize: int, format: seq<Byte>,
    subChunk1Id: seq<Byte>, subChunk1Size: int,
    audioFormat: int, numChannels: int,
    sampleRate: int, byteRate: int,
    blockAlign: int, bitsPerSample: int,
    subChunk2Id: seq<Byte>, subChunk2Size: int)

  /** A four-byte field through to_big_endian. */
  function ReadInt(f: seq<Byte>, off: nat): int
    requires off + 4 <= |f|
  {
    ToBigEndian(f[off..off + 4])
  }

  /** A two-byte field assembled as b0 | (b1 << 8) and stored in a short. */
  function ReadShort(f: seq<Byte>, off: nat): int
    requires off + 2 <= |f|
  {
    Wrap16(COr(f[off], CShl(f[off + 1], 8)))
  }

  lemma ReadShortIsLittleEndian(f: seq<Byte>, off: nat)
    requires off + 2 <= |f|
    ensures ReadShort(f, off) == Wrap16(f[off] + 256 * (f[off + 1] as int))
  {
    Pow2Bytes();
    ShiftedLow(f[off + 1]);
    COrSmall(f[off], CShl(f[off + 1], 8), f[off + 1], 8);
  }

  /** A four-character chunk id, copied as it is. */
  function ReadId(f: seq<Byte>, off: nat): (id: seq<Byte>)
    requires off + 4 <= |f|
    ensures |id| == 4
  {
    f[off..off + 4]
  }

  /** Where the data subchunk id starts: two padding bytes are skipped when
      the format subchunk is not 16 bytes long. */
  function DataIdOffset(subChunk1Size: int): (off: nat)
    ensures off == (if subChunk1Size == 16 then 36 else 38)
  {
    if subChunk1Size != 16 then 38 else 36
  }

  /** Where the first sample frame starts. */
  function HeaderLength(subChunk1Size: int): nat
  {
    DataIdOffset(subChunk1Size) + 8
  }

  /** The header reads of extract_wav, field after field. None stands for a
      file that ends inside the header: the C code then goes on with whatever
      its buffers held before, which the model does not follow. */
  function ParseHeader(f: seq<Byte>): (r: Option<WaveHeader>)
    ensures r.Some? <==> 20 <= |f| && HeaderLength(ReadInt(f, 16)) <= |f|
    ensures r.Some? ==> r.value.subChunk1Size == ReadInt(f, 16)
    ensures r.Some? ==> (InInt16(r.value.audioFormat) && InInt16(r.value.numChannels)
                         && InInt16(r.value.blockAlign) && InInt16(r.value.bitsPerSample))
  {
    if |f| < 20 || |f| < HeaderLength(ReadInt(f, 16)) then None
    else
      var sub1 := ReadInt(f, 16);
      var d := DataIdOffset(sub1);
      Some(WaveHeader(
        ReadId(f, 0), ReadInt(f, 4), ReadId(f, 8),
        ReadId(f, 12), sub1,
        ReadShort(f, 20), ReadShort(f, 22),
        ReadInt(f, 24), ReadInt(f, 28),
        ReadShort(f, 32), ReadShort(f, 34),
        ReadId(f, d), ReadInt(f, d + 4)))
  }

  /** The data subchunk's id and size follow the format fields directly
      after a 16-byte format subchunk (bytes 36..44) and two bytes later after
      any other (38..46). */
  lemma ParseHeaderLayout(f: seq<Byte>, h: WaveHeader)
    requires ParseHeader(f) == Some(h)
    ensures var d := DataIdOffset(h.subChunk1Size);
      d + 8 <= |f| && h.subChunk2Id == f[d..d + 4] && h.subChunk2Size == LeValueInt(f[d + 4..d + 8])
  {
    var d := DataIdOffset(h.subChunk1Size);
    assert h.subChunk2Size == ReadInt(f, d + 4);
    ToBigEndianIsLittleEndian(f[d + 4..d + 8]);
  }

  /** A four-byte little-endian field read as a 32-bit int. */
  function LeValueInt(s: seq<Byte>): int
  {
    Wrap32(LeValue(s))
  }

  /** size_of_each_sample: the bytes of one frame, numChannels * bitsPerSample / 8
      with C's truncating division. */
  function FrameSize(h: WaveHeader): int
  {
    CDiv(h.numChannels * h.bitsPerSample, 8)
  }

  /** num_samples = subChunk2Size / size_of_each_sample; None where C divides by zero. */
  function NumSamples(h: WaveHeader): (n: Option<int>)
    ensures n.Some? <==> FrameSize(h) != 0
  {
    if FrameSize(h) == 0 then None else Some(CDiv(h.subChunk2Size, FrameSize(h)))
  }

  /** For a positive frame size and data size, num_samples is the number of
      whole frames in the data subchunk. */
  lemma NumSamplesCountsFrames(h: WaveHeader)
    requires FrameSize(h) > 0 && h.subChunk2Size >= 0
    ensures var n := NumSamples(h).value;
      n >= 0 && n * FrameSize(h) <= h.subChunk2Size < (n + 1) * FrameSize(h)
  {
    var d, s := FrameSize(h), h.subChunk2Size;
    var n := s / d;
    assert s == d * n + s % d;
    assert (n + 1) * d == n * d + d;
  }

  /** The valid amplitude range for a bit depth: the two's-complement range
      of 8-, 16- and 32-bit integers, and [0, 0] for any other depth. */
  function Limits(bitsPerSample: int): (r: (int, int))
    ensures bitsPerSample == 8 || bitsPerSample == 16 || bitsPerSample == 32 ==>
      r.0 + Pow2(bitsPerSample - 1) == 0 && r.1 == Pow2(bitsPerSample - 1) - 1
    ensures !(bitsPerSample == 8 || bitsPerSample == 16 || bitsPerSample == 32) ==> r == (0, 0)
  {
    Pow2Bytes();
    if bitsPerSample == 8 then (-128, 127)
    else if bitsPerSample == 16 then (-32768, 32767)
    else if bitsPerSample == 32 then (-2147483648, 2147483647)
    else (0, 0)
  }

  /** The 32-bit branch of the channel decode as written: every byte is a
      sign-extended char, so a byte of 128 or more below the top one sets
      all the bits above it. */
  function Sample32AsWritten(frame: seq<Byte>): int
    requires |frame| == 4
  {
    COr(COr(COr(SignedChar(frame[0]), CShl(SignedChar(frame[1]), 8)),
      CShl(SignedChar(frame[2]), 16)), CShl(SignedChar(frame[3]), 24))
  }

  /** The four bytes 80 00 00 00 hold 128; the branch as written reads -128. */
  lemma Sample32AsWrittenSmearsSign()
    ensures LeValueInt([0x80, 0, 0, 0]) == 128
    ensures Sample32AsWritten([0x80, 0, 0, 0]) == -128
  {
    LeValue4([0x80, 0, 0, 0]);
    var f: seq<Byte> := [0x80, 0, 0, 0];
    assert SignedChar(f[0]) == -128;
    assert SignedChar(f[1]) == 0 && SignedChar(f[2]) == 0 && SignedChar(f[3]) == 0;
    assert CShl(0, 8) == 0 && CShl(0, 16) == 0 && CShl(0, 24) == 0;
    COrZero(-128);
    assert Sample32AsWritten(f) == COr(COr(COr(-128, 0), 0), 0);
  }

  /** The 32-bit branch as intended: the three low bytes masked with 255, as
      the 16-bit branch masks its low byte. */
  function Sample32(frame: seq<Byte>): int
    requires |frame| == 4
  {
    COr(COr(COr(CAnd(SignedChar(frame[0]), 255), CShl(CAnd(SignedChar(frame[1]), 255), 8)),
      CShl(CAnd(SignedChar(frame[2]), 255), 16)), CShl(SignedChar(frame[3]), 24))
  }

  /** The masked decode reads the little-endian 32-bit value, the same as
      the header's to_big_endian. */
  lemma Sample32IsLittleEndian(frame: seq<Byte>)
    requires |frame| == 4
    ensures Sample32(frame) == LeValueInt(frame)
    ensures Sample32(frame) == ToBigEndian(frame)
  {
    MaskedLowByte(frame[0]);
    MaskedLowByte(frame[1]);
    MaskedLowByte(frame[2]);
    ShiftedTop(frame[3]);
    Assemble32(frame[0], frame[1], frame[2], frame[3], CShl(SignedChar(frame[3]), 24));
    assert [frame[0], frame[1], frame[2], frame[3]] == frame;
    ToBigEndianIsLittleEndian(frame);
  }

  /** The 16-bit branch: (b0 & 255) | (b1 << 8) on signed chars. */
  function Sample16(frame: seq<Byte>): int
    requires |frame| == 2
  {
    COr(CAnd(SignedChar(frame[0]), 255), CShl(SignedChar(frame[1]), 8))
  }

  /** The 16-bit branch reads the little-endian value as a signed short. */
  lemma Sample16IsLittleEndian(frame: seq<Byte>)
    requires |frame| == 2
    ensures Sample16(frame) == frame[0] + 256 * SignedChar(frame[1])
    ensures Sample16(frame) == Wrap16(LeValue(frame))
  {
    var b0, b1: int := frame[0], frame[1];
    var w := b0 + 256 * SignedChar(frame[1]);
    MaskedLowByte(frame[0]);
    HighByte16(frame[1]);
    LeValue2(frame);
    if b1 >= 128 {
      Wrap16Shift(w);
    }
  }

  /** (b0 & 255) on a signed char gives back the byte. */
  lemma MaskedLowByte(b: Byte)
    ensures CAnd(SignedChar(b), 255) == b
  {
    CAndLowByte(SignedChar(b));
  }

  /** A signed char shifted by 8 and or-ed over a low byte. */
  lemma HighByte16(b1: Byte)
    ensures forall b0: int {:trigger COr(b0, CShl(SignedChar(b1), 8))} :: 0 <= b0 < 256 ==>
      COr(b0, CShl(SignedChar(b1), 8)) == b0 + 256 * SignedChar(b1)
  {
    var s1 := SignedChar(b1);
    var y := CShl(s1, 8);
    Pow2Bytes();
    assert InInt32(s1 * 256);
    var c: nat := if b1 < 128 then b1 else b1 + 16777216 - 256;
    assert Bits32(y) == c * 256;
    forall b0: int | 0 <= b0 < 256
      ensures COr(b0, y) == b0 + 256 * s1
    {
      COrLowByte(b0, y, c);
      if b1 >= 128 {
        assert b0 + c * 256 == (b0 + 256 * s1) + TWO_32;
        Wrap32Shift(b0 + 256 * s1);
      }
    }
  }

  /** data_in_channel for one frame. Every channel decodes the frame's first
      bytes: the C loop never moves past channel 0 in data_buffer. */
  function ChannelValue(frame: seq<Byte>, bytesInChannel: int): int
    requires FrameFits(frame, bytesInChannel)
  {
    if bytesInChannel == 4 then Sample32(frame[..4])
    else if bytesInChannel == 2 then Sample16(frame[..2])
    else if bytesInChannel == 1 then SignedChar(frame[0])
    else 0
  }

  /** A frame holds the bytes the channel decode reads. */
  predicate FrameFits(frame: seq<Byte>, bytesInChannel: int)
  {
    (bytesInChannel == 1 || bytesInChannel == 2 || bytesInChannel == 4) ==> bytesInChannel <= |frame|
  }

  /** With one byte per channel per 8 bits of depth the decoded value always
      lies within the depth's limits, so the range check never fires. */
  lemma ChannelValueInLimits(frame: seq<Byte>, bitsPerSample: int)
    requires bitsPerSample == 8 || bitsPerSample == 16 || bitsPerSample == 32
    requires FrameFits(frame, bitsPerSample / 8)
    ensures Limits(bitsPerSample).0 <= ChannelValue(frame, bitsPerSample / 8) <= Limits(bitsPerSample).1
  {
    Pow2Bytes();
    if bitsPerSample == 16 {
      Sample16IsLittleEndian(frame[..2]);
    } else if bitsPerSample == 32 {
      Sample32IsLittleEndian(frame[..4]);
    }
  }

  /** A stored sample: malloc'd memory not yet written, or the double
      data_in_channel / high_limit, which is not finite when high_limit is 0. */
  datatype Sample = Unset | Scaled(value: real) | NonFinite

  function Scale(v: int, high: int): (s: Sample)
    ensures s.Scaled? <==> high != 0
    ensures s.Scaled? ==> s.value * high as real == v as real
  {
    if high == 0 then NonFinite else Scaled(v as real / high as real)
  }

  /** Dividing by high_limit maps the depth's range onto [-1 - 1/high, 1]:
      the most negative sample lands just below -1. */
  lemma ScaleRange(v: int, bitsPerSample: int)
    requires bitsPerSample == 8 || bitsPerSample == 16 || bitsPerSample == 32
    requires Limits(bitsPerSample).0 <= v <= Limits(bitsPerSample).1
    ensures var high := Limits(bitsPerSample).1;
      -1.0 - 1.0 / high as real <= Scale(v, high).value <= 1.0
    ensures v == Limits(bitsPerSample).0 ==> Scale(v, Limits(bitsPerSample).1).value < -1.0
  {
    var (low, high) := Limits(bitsPerSample);
    assert low == -high - 1;
    var r := Scale(v, high).value;
    assert r * high as real == v as real;
    assert (-1.0 - 1.0 / high as real) * high as real == low as real;
  }

  /** The frames fread delivers: up to n reads of frameSize bytes, stopping
      at the first read that finds fewer bytes than that. */
  function Frames(f: seq<Byte>, frameSize: nat, n: int): (r: seq<seq<Byte>>)
    requires frameSize >= 1
    ensures forall k :: 0 <= k < |r| ==> |r[k]| == frameSize
    decreases |f|
  {
    if n <= 0 || |f| < frameSize then []
    else [f[..frameSize]] + Frames(f[frameSize..], frameSize, n - 1)
  }

  /** As many frames are read as the count asks for and the bytes allow. */
  lemma {:induction false} FramesCount(f: seq<Byte>, frameSize: nat, n: int)
    requires frameSize >= 1
    ensures |Frames(f, frameSize, n)| == Min(Max(n, 0), |f| / frameSize)
    decreases |f|
  {
    if n <= 0 || |f| < frameSize {
      if n > 0 {
        DivModUnique(|f|, frameSize, 0, |f|);
      }
    } else {
      FramesCount(f[frameSize..], frameSize, n - 1);
      ModStep(|f| - frameSize, frameSize);
    }
  }

  /** Frame k is the k-th block of frameSize bytes. */
  lemma {:induction false} FramesAt(f: seq<Byte>, frameSize: nat, n: int, k: nat)
    requires frameSize >= 1 && k < |Frames(f, frameSize, n)|
    ensures (k + 1) * frameSize <= |f|
    ensures Frames(f, frameSize, n)[k] == f[k * frameSize..(k + 1) * frameSize]
    decreases k
  {
    if k > 0 {
      var g := f[frameSize..];
      FramesAt(g, frameSize, n - 1, k - 1);
      assert k * frameSize == (k - 1) * frameSize + frameSize;
      assert (k + 1) * frameSize == k * frameSize + frameSize;
      assert g[(k - 1) * frameSize..k * frameSize] == f[k * frameSize..(k + 1) * frameSize];
    }
  }

  predicate AllFit(frames: seq<seq<Byte>>, bytesInChannel: int)
  {
    forall k :: 0 <= k < |frames| ==> FrameFits(frames[k], bytesInChannel)
  }

  /** sample_data after the loop: frame k's decoded and scaled value at k,
      and memory never written past the frames that were read. */
  function SampleData(frames: seq<seq<Byte>>, n: int, bytesInChannel: int, high: int): (r: seq<Sample>)
    requires AllFit(frames, bytesInChannel)
    ensures |r| == Max(n, 0)
  {
    seq(Max(n, 0), k requires 0 <= k < Max(n, 0) =>
      if k < |frames| then Scale(ChannelValue(frames[k], bytesInChannel), high) else Unset)
  }

  /** The channel loop for one frame: every pass stores the same value at idx. */
  method StoreChannels(sampleData: array<Sample>, idx: nat, frame: seq<Byte>,
                       bytesInChannel: int, high: int, channels: nat)
    requires idx < sampleData.Length && channels >= 1 && FrameFits(frame, bytesInChannel)
    modifies sampleData
    ensures sampleData[..] == old(sampleData[..])[idx := Scale(ChannelValue(frame, bytesInChannel), high)]
  {
    var xchannels := 0;
    while xchannels < channels
      invariant 0 <= xchannels <= channels
      invariant sampleData[..] == if xchannels == 0 then old(sampleData[..])
        else old(sampleData[..])[idx := Scale(ChannelValue(frame, bytesInChannel), high)]
    {
      var dataInChannel := ChannelValue(frame, bytesInChannel);
      sampleData[idx] := Scale(dataInChannel, high);
      xchannels := xchannels + 1;
    }
  }

  /** One more read of a whole frame at pos. */
  lemma FramesStep(data: seq<Byte>, pos: nat, frameSize: nat, m: int)
    requires frameSize >= 1 && m >= 1 && pos + frameSize <= |data|
    ensures Frames(data[pos..], frameSize, m)
      == [data[pos..pos + frameSize]] + Frames(data[pos + frameSize..], frameSize, m - 1)
  {
    assert data[pos..][..frameSize] == data[pos..pos + frameSize];
    assert data[pos..][frameSize..] == data[pos + frameSize..];
  }

  /** The loop's picture of the frames after one more whole read. */
  lemma FramesAdvance(all: seq<seq<Byte>>, done: seq<seq<Byte>>, data: seq<Byte>, pos: nat, frameSize: nat, m: int)
    requires frameSize >= 1 && m >= 1 && pos + frameSize <= |data|
    requires all == done + Frames(data[pos..], frameSize, m)
    ensures all == (done + [data[pos..pos + frameSize]]) + Frames(data[pos + frameSize..], frameSize, m - 1)
  {
    FramesStep(data, pos, frameSize, m);
  }

  /** Storing the next frame's sample extends the picture by one entry. */
  lemma SampleDataStep(done: seq<seq<Byte>>, frame: seq<Byte>, n: int, bytesInChannel: int, high: int)
    requires AllFit(done, bytesInChannel) && FrameFits(frame, bytesInChannel) && |done| < n
    ensures AllFit(done + [frame], bytesInChannel)
    ensures SampleData(done + [frame], n, bytesInChannel, high)
      == SampleData(done, n, bytesInChannel, high)[|done| := Scale(ChannelValue(frame, bytesInChannel), high)]
  {
    var d := done + [frame];
    assert forall k :: 0 <= k < |done| ==> d[k] == done[k];
  }

  /** The sample loop of extract_wav over the bytes after the header. */
  method ReadSamples(data: seq<Byte>, frameSize: nat, numSamples: int,
                     bytesInChannel: int, high: int, channels: nat)
    returns (sampleData: array<Sample>)
    requires frameSize >= 1 && channels >= 1
    requires (bytesInChannel == 1 || bytesInChannel == 2 || bytesInChannel == 4) ==> bytesInChannel <= frameSize
    ensures fresh(sampleData)
    ensures AllFit(Frames(data, frameSize, numSamples), bytesInChannel)
    ensures sampleData[..] == SampleData(Frames(data, frameSize, numSamples), numSamples, bytesInChannel, high)
  {
    sampleData := new Sample[Max(numSamples, 0)](_ => Unset);
    ghost var done: seq<seq<Byte>> := [];
    var i := 1;
    var pos := 0;
    while i <= numSamples
      invariant 1 <= i <= Max(numSamples, 0) + 1 && |done| == i - 1
      invariant 0 <= pos <= |data|
      invariant AllFit(done, bytesInChannel)
      invariant Frames(data, frameSize, numSamples) == done + Frames(data[pos..], frameSize, numSamples - (i - 1))
      invariant sampleData[..] == SampleData(done, numSamples, bytesInChannel, high)
    {
      if |data| - pos < frameSize {
        break;
      }
      var frame := data[pos..pos + frameSize];
      FramesAdvance(Frames(data, frameSize, numSamples), done, data, pos, frameSize, numSamples - (i - 1));
      SampleDataStep(done, frame, numSamples, bytesInChannel, high);
      StoreChannels(sampleData, i - 1, frame, bytesInChannel, high, channels);
      done := done + [frame];
      pos := pos + frameSize;
      i := i + 1;
    }
  }

  /** What extract_wav hands back: the length field and, for PCM data whose
      frame splits evenly over the channels, the sample array. */
  datatype WaveData = WaveData(length: int, sampleData: Option<seq<Sample>>)

  /** Frame bytes split over the channels, in C arithmetic. */
  function BytesInChannel(h: WaveHeader): int
    requires h.numChannels != 0
  {
    CDiv(FrameSize(h), h.numChannels)
  }

  /** The PCM branch of extract_wav once the frame size is positive, on the
      bytes after the header: the sample array when the frame splits evenly
      over the channels, None when it does not. */
  function PcmSamples(data: seq<Byte>, h: WaveHeader, n: int): Option<seq<Sample>>
    requires FrameSize(h) > 0
  {
    var bic := BytesInChannel(h);
    if bic * h.numChannels != FrameSize(h) then None
    else
      ShareFits(bic, h.numChannels, FrameSize(h));
      Some(SampleData(Frames(data, FrameSize(h), n), n, bic, Limits(h.bitsPerSample).1))
  }

  /** extract_wav on the file's bytes (None: the file does not open). The
      outer None stands for what the model does not follow: a file that ends
      inside the header, a frame size of zero (C divides by it) and a
      negative frame size on PCM data (C declares an array of that size). */
  function Extract(file: Option<seq<Byte>>): (r: Option<WaveData>)
  {
    if file.None? then Some(WaveData(-1, None))
    else
      var f := file.value;
      match ParseHeader(f)
      case None => None
      case Some(h) =>
        if FrameSize(h) == 0 then None
        else
          var n := NumSamples(h).value;
          if h.audioFormat != 1 then Some(WaveData(n, None))
          else if FrameSize(h) < 0 then None
          else Some(WaveData(n, PcmSamples(f[HeaderLength(h.subChunk1Size)..], h, n)))
  }

  /** A channel share that divides the frame exactly and is positive fits in it. */
  lemma ShareFits(bic: int, channels: int, size: int)
    requires size > 0 && bic * channels == size
    ensures (bic == 1 || bic == 2 || bic == 4) ==> channels >= 1 && bic <= size
  {
    if bic == 1 || bic == 2 || bic == 4 {
      if channels <= 0 {
        MulMonotone(bic, channels, 0);
      } else {
        MulAtLeast(bic, channels);
      }
    }
  }

  /** The PCM branch: the channel split check, the limits and the sample loop. */
  method ReadPcm(data: seq<Byte>, h: WaveHeader, numSamples: int) returns (r: Option<seq<Sample>>)
    requires FrameSize(h) > 0 && InInt16(h.numChannels)
    ensures r == PcmSamples(data, h, numSamples)
  {
    var sizeOfEachSample := FrameSize(h);
    var bytesInEachChannel := CDiv(sizeOfEachSample, h.numChannels);
    if bytesInEachChannel * h.numChannels != sizeOfEachSample {
      return None;
    }
    var limits := Limits(h.bitsPerSample);
    ShareFits(bytesInEachChannel, h.numChannels, sizeOfEachSample);
    var sampleData := ReadSamples(data, sizeOfEachSample, numSamples,
                                  bytesInEachChannel, limits.1, Bits32(h.numChannels));
    return Some(sampleData[..]);
  }

  /** extract_wav: the header, the frame arithmetic and the sample loop. */
  method ExtractWav(file: Option<seq<Byte>>) returns (r: Option<WaveData>)
    ensures r == Extract(file)
  {
    if file.None? {
      return Some(WaveData(-1, None));
    }
    var f := file.value;
    var parsed := ParseHeader(f);
    if parsed.None? {
      return None;
    }
    var h := parsed.value;
    var sizeOfEachSample := FrameSize(h);
    if sizeOfEachSample == 0 {
      return None;
    }
    var numSamples := CDiv(h.subChunk2Size, sizeOfEachSample);
    if h.audioFormat != 1 {
      return Some(WaveData(numSamples, None));
    }
    if sizeOfEachSample < 0 {
      return None;
    }
    var sampleData := ReadPcm(f[HeaderLength(h.subChunk1Size)..], h, numSamples);
    return Some(WaveData(numSamples, sampleData));
  }
}
