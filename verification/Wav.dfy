/** WAV bytes: the canonical 44-byte PCM16 writer and the chunk-scanning reader. Samples
    are reals. */
module Wav {
  import opened Arith
  import opened Wrappers

  type byte = b: int | 0 <= b < 256

  // ---------------------------------------------------------------- little endian

  function LE16(n: nat): (r: seq<byte>)
    requires n < 0x1_0000
    ensures |r| == 2
  {
    [n % 256, n / 256]
  }

  function LE32(n: nat): (r: seq<byte>)
    requires n < 0x1_0000_0000
    ensures |r| == 4
  {
    [n % 256, n / 256 % 256, n / 0x1_0000 % 256, n / 0x100_0000]
  }

  function U16(s: seq<byte>): (n: nat)
    requires |s| == 2
    ensures n < 0x1_0000
  {
    var a: int, b: int := s[0], s[1];
    a + 256 * b
  }

  function U32(s: seq<byte>): (n: nat)
    requires |s| == 4
    ensures n < 0x1_0000_0000
  {
    var a: int, b: int, c: int, d: int := s[0], s[1], s[2], s[3];
    a + 256 * b + 0x1_0000 * c + 0x100_0000 * d
  }

  lemma U16OfLE16(n: nat)
    requires n < 0x1_0000
    ensures U16(LE16(n)) == n
  {
  }

  lemma U32OfLE32(n: nat)
    requires n < 0x1_0000_0000
    ensures U32(LE32(n)) == n
  {
    var q := n / 256;
    assert n / 0x1_0000 == q / 256 && n / 0x100_0000 == q / 256 / 256;
  }

  lemma LE32OfU32(s: seq<byte>)
    requires |s| == 4
    ensures LE32(U32(s)) == s
  {
    var n := U32(s);
    var b: int, c: int, d: int := s[1], s[2], s[3];
    assert n / 256 == b + 256 * c + 0x1_0000 * d;
    assert n / 0x1_0000 == c + 256 * d;
    assert n / 0x100_0000 == d;
  }

  /** Two's complement of a signed 16-bit value. */
  function FromI16(v: int): (n: nat)
    requires -32768 <= v <= 32767
    ensures n < 0x1_0000
  {
    if v >= 0 then v else v + 0x1_0000
  }

  function ToI16(n: nat): (v: int)
    requires n < 0x1_0000
    ensures -32768 <= v <= 32767
  {
    if n < 0x8000 then n else n - 0x1_0000
  }

  // -------------------------------------------------------------------- constants

  const RIFF: seq<byte> := [0x52, 0x49, 0x46, 0x46]
  const WAVE: seq<byte> := [0x57, 0x41, 0x56, 0x45]
  const FMT: seq<byte> := [0x66, 0x6D, 0x74, 0x20]
  const DATA: seq<byte> := [0x64, 0x61, 0x74, 0x61]

  const U32_MAX: nat := 0xFFFF_FFFF
  const U16_MAX: nat := 0xFFFF
  /** Samples a RIFF data length can describe. */
  const MAX_SAMPLES: nat := (0xFFFF_FFFF - 44) / 2
  /** Largest chunk the reader accepts: 500 MiB. */
  const MAX_DATA_SIZE: nat := 500 * 1024 * 1024
  const MAX_CHUNK_SCAN_ITERATIONS: nat := 256

  // -------------------------------------------------------------------- quantizing

  /** Round half away from zero. */
  function Round(x: real): int {
    if x >= 0.0 then (x + 0.5).Floor else -((-x + 0.5).Floor)
  }

  /** Nearest, and away from zero when two integers are equally near. */
  lemma RoundHalfAway(x: real)
    ensures -0.5 <= Round(x) as real - x <= 0.5
    ensures Round(x) as real - x == 0.5 ==> x > 0.0
    ensures Round(x) as real - x == -0.5 ==> x < 0.0
  {
  }

  function ClampI16(v: int): (r: int)
    ensures -32768 <= r <= 32767
  {
    if v < -32768 then -32768 else if v > 32767 then 32767 else v
  }

  /** Scale by 32768, round, clamp. */
  function Quantize(x: real): (v: int)
    ensures -32768 <= v <= 32767
  {
    ClampI16(Round(x * 32768.0))
  }

  function Dequantize(v: int): real {
    v as real / 32768.0
  }

  function ClampUnit(x: real): real {
    if x < -1.0 then -1.0 else if x > 1.0 then 1.0 else x
  }

  /** The code is the rounded scaled sample where that fits, and the nearer end of the range
      elsewhere. */
  lemma QuantizeNearest(x: real)
    ensures var v, y := Quantize(x), x * 32768.0;
            && (-32768 <= Round(y) <= 32767 ==> v == Round(y))
            && (y > 32767.5 ==> v == 32767) && (y < -32768.5 ==> v == -32768)
  {
    RoundHalfAway(x * 32768.0);
  }

  /** One quantization step from the clamped input. */
  lemma QuantizeError(x: real)
    ensures -1.0 / 32768.0 <= Dequantize(Quantize(x)) - ClampUnit(x) <= 1.0 / 32768.0
  {
    var y := x * 32768.0;
    var v := Round(y);
    assert -0.5 <= v as real - y <= 0.5;
  }

  lemma QuantizeExact(v: int)
    requires -32768 <= v <= 32767
    ensures Quantize(Dequantize(v)) == v
  {
    assert Dequantize(v) * 32768.0 == v as real;
  }

  // --------------------------------------------------------------------- the writer

  function Min(a: nat, b: nat): nat {
    if a <= b then a else b
  }

  /** Bytes per second, saturating at each multiplication. */
  function ByteRate(rate: nat, channels: nat): (r: nat)
    ensures r <= U32_MAX
  {
    MulNonnegative(rate, channels);
    Min(Min(rate * channels, U32_MAX) * 2, U32_MAX)
  }

  function BlockAlign(channels: nat): (r: nat)
    ensures r <= U16_MAX
  {
    Min(channels * 2, U16_MAX)
  }

  /** The 44 header bytes for `n` encoded samples. */
  function Header(n: nat, rate: nat, channels: nat): (h: seq<byte>)
    requires n <= MAX_SAMPLES && rate <= U32_MAX && channels <= U16_MAX
    ensures |h| == 44
  {
    var byteRate, blockAlign := ByteRate(rate, channels), BlockAlign(channels);
    RIFF + LE32(36 + n * 2) + WAVE
    + FMT + LE32(16) + LE16(1) + LE16(channels) + LE32(rate) + LE32(byteRate) + LE16(blockAlign) + LE16(16)
    + DATA + LE32(n * 2)
  }

  /** The sample bytes. */
  function Payload(samples: seq<real>): (r: seq<byte>)
    ensures |r| == 2 * |samples|
  {
    if samples == [] then []
    else Payload(samples[..|samples| - 1]) + LE16(FromI16(Quantize(samples[|samples| - 1])))
  }

  function Encoded(samples: seq<real>): seq<real> {
    samples[..Min(|samples|, MAX_SAMPLES)]
  }

  function Encode(samples: seq<real>, rate: nat, channels: nat): (r: seq<byte>)
    requires rate <= U32_MAX && channels <= U16_MAX
  {
    Header(|Encoded(samples)|, rate, channels) + Payload(Encoded(samples))
  }

  /** The writer: header fields appended in order, then the samples. */
  method EncodeWavPcm16(samples: seq<real>, rate: nat, channels: nat) returns (out: seq<byte>)
    requires rate <= U32_MAX && channels <= U16_MAX
    ensures out == Encode(samples, rate, channels)
    ensures |out| == 44 + 2 * Min(|samples|, 2_147_483_625)
  {
    var encoded := samples[..Min(|samples|, MAX_SAMPLES)];
    var dataLen := |encoded| * 2;
    var byteRate, blockAlign := ByteRate(rate, channels), BlockAlign(channels);
    hide LE32, LE16, Quantize, ByteRate, BlockAlign, FromI16, Payload;
    out := RIFF;
    out := out + LE32(36 + dataLen);
    out := out + WAVE;
    out := out + FMT;
    out := out + LE32(16);
    out := out + LE16(1);
    out := out + LE16(channels);
    out := out + LE32(rate);
    out := out + LE32(byteRate);
    out := out + LE16(blockAlign);
    out := out + LE16(16);
    out := out + DATA;
    out := out + LE32(dataLen);
    ghost var header := Header(|encoded|, rate, channels);
    assert out == header;
    PayloadStart(header, encoded);
    for i := 0 to |encoded|
      invariant out == header + Payload(encoded[..i])
    {
      PayloadStep(header, encoded, i);
      out := out + LE16(FromI16(Quantize(encoded[i])));
    }
    assert encoded[..|encoded|] == encoded;
  }

  lemma PayloadStart(header: seq<byte>, s: seq<real>)
    ensures header + Payload(s[..0]) == header
  {
  }

  lemma PayloadStep(header: seq<byte>, s: seq<real>, i: nat)
    requires i < |s|
    ensures header + Payload(s[..i + 1]) == (header + Payload(s[..i])) + LE16(FromI16(Quantize(s[i])))
  {
    hide LE16, FromI16, Quantize;
    assert s[..i + 1][..i] == s[..i];
  }

  // --------------------------------------------------------------------- the reader

  /** Where the scan stopped: the advertised size and what is left to read. */
  datatype Found = Found(size: nat, rest: seq<byte>)

  /** The bounded scan for the data chunk: `buf` is the chunk header last read. */
  function Scan(buf: seq<byte>, rest: seq<byte>, skips: nat): Result<Found>
    requires |buf| == 8
    decreases |rest|
  {
    if buf[..4] == DATA then Ok(Found(U32(buf[4..8]), rest))
    else if skips + 1 > MAX_CHUNK_SCAN_ITERATIONS then Err
    else
      var s := U32(buf[4..8]);
      if s == 0 || s > MAX_DATA_SIZE || |rest| < s + 8 then Err
      else Scan(rest[s..s + 8], rest[s + 8..], skips + 1)
  }

  function DecodePcm(data: seq<byte>): (r: seq<real>)
    ensures |r| == |data| / 2
  {
    seq(|data| / 2, i requires 0 <= i < |data| / 2 => Sample(data[2 * i..2 * i + 2]))
  }

  /** The value of one little-endian signed 16-bit sample. */
  function Sample(s: seq<byte>): real
    requires |s| == 2
  {
    Dequantize(ToI16(U16(s)))
  }

  /** The low byte comes first, and the high byte carries the sign. */
  lemma SampleValue(s: seq<byte>)
    requires |s| == 2
    ensures Sample(s) * 32768.0
         == (s[0] as int + 256 * (if s[1] < 128 then s[1] as int else s[1] as int - 256)) as real
  {
  }

  lemma SampleOfLE16(v: int)
    requires -32768 <= v <= 32767
    ensures Sample(LE16(FromI16(v))) == Dequantize(v)
  {
    U16OfLE16(FromI16(v));
  }

  /** `f32` gives the value of four bytes read as a single-precision float. */
  function DecodeFloat(data: seq<byte>, f32: seq<byte> -> real): (r: seq<real>)
    ensures |r| == |data| / 4
    ensures forall i :: 0 <= i < |r| ==> r[i] == f32([data[4 * i], data[4 * i + 1], data[4 * i + 2], data[4 * i + 3]])
  {
    assert forall i :: 0 <= i < |data| / 4 ==>
             data[4 * i..4 * i + 4] == [data[4 * i], data[4 * i + 1], data[4 * i + 2], data[4 * i + 3]];
    seq(|data| / 4, i requires 0 <= i < |data| / 4 => f32(data[4 * i..4 * i + 4]))
  }

  function Sum(s: seq<real>): real {
    if s == [] then 0.0 else Sum(s[..|s| - 1]) + s[|s| - 1]
  }

  lemma FrameFits(n: nat, channels: nat, i: nat)
    requires channels >= 1 && i < n / channels
    ensures 0 <= i * channels && i * channels + channels <= n
  {
    var q := n / channels;
    assert n == q * channels + n % channels;
    MulNonnegative(i, channels);
    MulMonotone(i + 1, q, channels);
  }

  /** The samples of frame `i`, one per channel. */
  function Frame(samples: seq<real>, channels: nat, i: nat): (f: seq<real>)
    requires channels >= 1 && i < |samples| / channels
    ensures |f| == channels
  {
    FrameFits(|samples|, channels, i);
    samples[i * channels..i * channels + channels]
  }

  function Mean(f: seq<real>): real
    requires f != []
  {
    Sum(f) / (|f| as real)
  }

  /** Averages the channels of each frame; one channel is left alone. */
  function Downmix(samples: seq<real>, channels: nat): (r: seq<real>)
    requires channels >= 1
    ensures channels > 1 ==> |r| == |samples| / channels
    ensures channels == 1 ==> r == samples
  {
    if channels > 1 then
      seq(|samples| / channels, i requires 0 <= i < |samples| / channels => Mean(Frame(samples, channels, i)))
    else samples
  }

  /** The sum of `n` samples from position `from` on. */
  function TotalFrom(s: seq<real>, from: nat, n: nat): real
    requires from + n <= |s|
  {
    if n == 0 then 0.0 else TotalFrom(s, from, n - 1) + s[from + n - 1]
  }

  lemma {:induction false} SumIsTotal(s: seq<real>, from: nat, n: nat)
    requires from + n <= |s|
    ensures Sum(s[from..from + n]) == TotalFrom(s, from, n)
  {
    if n == 0 {
    } else {
      SumIsTotal(s, from, n - 1);
      assert s[from..from + n][..n - 1] == s[from..from + n - 1];
    }
  }

  /** A frame's mean times the channels is the total of its interleaved samples. */
  lemma MeanIsAverage(s: seq<real>, channels: nat, i: nat)
    requires channels >= 1 && i < |s| / channels
    ensures 0 <= i * channels && i * channels + channels <= |s|
    ensures Mean(Frame(s, channels, i)) * channels as real == TotalFrom(s, i * channels, channels)
  {
    FrameFits(|s|, channels, i);
    var base := i * channels;
    SumIsTotal(s, base, channels);
    assert Frame(s, channels, i) == s[base..base + channels];
    hide Sum, Frame, TotalFrom;
    QuotientTimes(Sum(s[base..base + channels]), channels as real);
  }

  lemma QuotientTimes(x: real, n: real)
    requires n != 0.0
    ensures (x / n) * n == x
  {
  }

  /** So it is with the mono sample of every whole frame. */
  lemma DownmixIsAverage(s: seq<real>, channels: nat, i: nat)
    requires channels >= 1 && i < |s| / channels
    ensures 0 <= i * channels && i * channels + channels <= |s| && i < |Downmix(s, channels)|
    ensures Downmix(s, channels)[i] * channels as real == TotalFrom(s, i * channels, channels)
  {
    hide Mean, Frame, TotalFrom;
    MeanIsAverage(s, channels, i);
    if channels == 1 { FrameOfOne(s, i); }
  }

  datatype Audio = Audio(mono: seq<real>, rate: nat)

  /** The payload of a file whose header and scan were accepted. */
  function Decode(fmt: nat, bits: nat, data: seq<byte>, f32: seq<byte> -> real): (r: Result<seq<real>>)
    ensures r.Ok? <==> (fmt, bits) in {(1, 16), (3, 32)}
    ensures r.Ok? ==> |r.value| == |data| * 8 / bits
  {
    if fmt == 1 && bits == 16 then Ok(DecodePcm(data))
    else if fmt == 3 && bits == 32 then Ok(DecodeFloat(data, f32))
    else Err
  }

  function Parse(bytes: seq<byte>, f32: seq<byte> -> real): Result<Audio> {
    if |bytes| < 44 then Err
    else if bytes[0..4] != RIFF || bytes[8..12] != WAVE then Err
    else
      var channels, rate := U16(bytes[22..24]), U32(bytes[24..28]);
      if channels == 0 || rate == 0 then Err
      else
        var found := Scan(bytes[36..44], bytes[44..], 0);
        if found.Err? then Err
        else
          var size, rest := found.value.size, found.value.rest;
          if size > MAX_DATA_SIZE || |rest| < size then Err
          else
            var samples := Decode(U16(bytes[20..22]), U16(bytes[34..36]), rest[..size], f32);
            if samples.Err? then Err else Ok(Audio(Downmix(samples.value, channels), rate))
  }

  lemma PrefixSlice(s: seq<byte>, n: nat, i: nat, j: nat)
    requires i <= j <= n <= |s|
    ensures s[..n][i..j] == s[i..j]
  {
  }

  lemma LeftSlice(p: seq<byte>, t: seq<byte>, i: nat, j: nat)
    requires i <= j <= |p|
    ensures (p + t)[i..j] == p[i..j]
  {
  }

  lemma RightSlice(p: seq<byte>, t: seq<byte>)
    ensures (p + t)[|p|..|p| + |t|] == t
  {
  }

  /** The reader, consuming its input from the front. `read` counts the bytes consumed and
      `skipped` lists the chunks passed over. An accepted file was read through its header,
      those chunks and its payload, and no further. */
  method ParseWav(bytes: seq<byte>, f32: seq<byte> -> real)
    returns (r: Result<Audio>, ghost read: nat, ghost skipped: seq<Chunk>)
    ensures r == Parse(bytes, f32)
    ensures read <= |bytes| && |skipped| <= MAX_CHUNK_SCAN_ITERATIONS
    ensures r.Ok? ==>
              exists f :: && Layout(bytes[36..44], bytes[44..], skipped, f) && f.size <= |f.rest|
                          && read == 44 + |ChunksBytes(skipped)| + f.size
  {
    hide U16, U32, LE32, Decode, Downmix, ChunksBytes;
    read, skipped := 0, [];
    if |bytes| < 44 { return Err, read, skipped; }
    var header, rest := bytes[..44], bytes[44..];
    read := 44;
    PrefixSlice(bytes, 44, 0, 4);
    PrefixSlice(bytes, 44, 8, 12);
    PrefixSlice(bytes, 44, 20, 22);
    PrefixSlice(bytes, 44, 22, 24);
    PrefixSlice(bytes, 44, 24, 28);
    PrefixSlice(bytes, 44, 34, 36);
    PrefixSlice(bytes, 44, 36, 44);
    if header[0..4] != RIFF || header[8..12] != WAVE { return Err, read, skipped; }
    var channels := U16(header[22..24]);
    if channels == 0 { return Err, read, skipped; }
    var rate := U32(header[24..28]);
    if rate == 0 { return Err, read, skipped; }
    var bits, fmt := U16(header[34..36]), U16(header[20..22]);
    var buf, iterations := header[36..44], 0;
    NoChunksYet(bytes);
    while buf[..4] != DATA
      invariant |buf| == 8 && iterations <= MAX_CHUNK_SCAN_ITERATIONS
      invariant AllSkippable(skipped) && |skipped| == iterations
      invariant bytes[36..] == ChunksBytes(skipped) + (buf + rest)
      invariant Scan(buf, rest, iterations) == Scan(bytes[36..44], bytes[44..], 0)
      invariant read + |rest| == |bytes|
      decreases |rest|
    {
      iterations := iterations + 1;
      if iterations > MAX_CHUNK_SCAN_ITERATIONS { return Err, read, skipped; }
      var skip := U32(buf[4..8]);
      if skip == 0 { return Err, read, skipped; }
      if skip > MAX_DATA_SIZE { return Err, read, skipped; }
      if |rest| < skip { return Err, read, skipped; }
      if |rest| - skip < 8 { return Err, read, skipped; }
      PassChunk(skipped, buf, rest, skip);
      skipped := skipped + [Chunk(buf[..4], rest[..skip])];
      buf, rest, read := rest[skip..skip + 8], rest[skip + 8..], read + skip + 8;
    }
    var size := U32(buf[4..8]);
    if size > MAX_DATA_SIZE { return Err, read, skipped; }
    if |rest| < size { return Err, read, skipped; }
    StoppedAtData(bytes, skipped, buf, rest, size);
    var data := rest[..size];
    read := read + size;
    var samples := Decode(fmt, bits, data, f32);
    if samples.Err? { return Err, read, skipped; }
    r := Ok(Audio(Downmix(samples.value, channels), rate));
  }

  lemma NoChunksYet(bytes: seq<byte>)
    requires |bytes| >= 44
    ensures bytes[36..] == ChunksBytes([]) + (bytes[36..44] + bytes[44..])
  {
  }

  /** Passing one chunk adds it to those skipped. */
  lemma PassChunk(skipped: seq<Chunk>, buf: seq<byte>, rest: seq<byte>, s: nat)
    requires AllSkippable(skipped) && |buf| == 8 && buf[..4] != DATA
    requires s == U32(buf[4..8]) && 1 <= s <= MAX_DATA_SIZE && s + 8 <= |rest|
    ensures AllSkippable(skipped + [Chunk(buf[..4], rest[..s])])
    ensures ChunksBytes(skipped) + (buf + rest)
         == ChunksBytes(skipped + [Chunk(buf[..4], rest[..s])]) + (rest[s..s + 8] + rest[s + 8..])
  {
    hide U32, LE32, ChunksBytes;
    var c := Chunk(buf[..4], rest[..s]);
    LE32OfU32(buf[4..8]);
    ChunksSnoc(skipped, c);
    ReadChunk(buf, rest, s);
    hide ChunkBytes;
    assert ChunksBytes(skipped) + (ChunkBytes(c) + (rest[s..s + 8] + rest[s + 8..]))
        == (ChunksBytes(skipped) + ChunkBytes(c)) + (rest[s..s + 8] + rest[s + 8..]);
  }

  lemma {:induction false} ChunksSnoc(cs: seq<Chunk>, c: Chunk)
    requires AllSkippable(cs) && Skippable(c)
    ensures AllSkippable(cs + [c]) && ChunksBytes(cs + [c]) == ChunksBytes(cs) + ChunkBytes(c)
  {
    hide ChunkBytes;
    if cs == [] {
      assert [] + [c] == [c] && [c][1..] == [];
    } else {
      assert (cs + [c])[1..] == cs[1..] + [c];
      ChunksSnoc(cs[1..], c);
    }
  }

  /** The layout read when the data header was reached. */
  lemma StoppedAtData(bytes: seq<byte>, skipped: seq<Chunk>, buf: seq<byte>, rest: seq<byte>, size: nat)
    requires |bytes| >= 44 && AllSkippable(skipped) && |buf| == 8 && buf[..4] == DATA && size == U32(buf[4..8])
    requires bytes[36..] == ChunksBytes(skipped) + (buf + rest)
    ensures Layout(bytes[36..44], bytes[44..], skipped, Found(size, rest))
    ensures |bytes| == 44 + |ChunksBytes(skipped)| + |rest|
  {
    hide U32, LE32, ChunksBytes;
    LE32OfU32(buf[4..8]);
    assert buf == buf[..4] + buf[4..8];
    assert bytes[36..] == bytes[36..44] + bytes[44..];
  }

  // ---------------------------------------------------- reading what was written

  /** The header fields, where the reader looks for them. */
  lemma HeaderFields(n: nat, rate: nat, channels: nat, p: seq<byte>)
    requires n <= MAX_SAMPLES && rate <= U32_MAX && channels <= U16_MAX
    ensures var b := Header(n, rate, channels) + p;
            && b[0..4] == RIFF && b[8..12] == WAVE && b[20..22] == LE16(1)
            && b[22..24] == LE16(channels) && b[24..28] == LE32(rate) && b[34..36] == LE16(16)
            && b[36..44] == DATA + LE32(n * 2) && b[44..] == p
  {
    hide LE16, LE32, ByteRate, BlockAlign;
  }

  /** Four bytes from `o` hold `v`, low byte first. */
  predicate Word(b: seq<byte>, o: nat, v: int)
    requires o + 4 <= |b|
  {
    b[o] as int + 256 * b[o + 1] as int + 65536 * b[o + 2] as int + 16777216 * b[o + 3] as int == v
  }

  predicate Half(b: seq<byte>, o: nat, v: int)
    requires o + 2 <= |b|
  {
    b[o] as int + 256 * b[o + 1] as int == v
  }

  predicate Letters(b: seq<byte>, o: nat, s: string)
    requires o + |s| <= |b|
  {
    forall k :: 0 <= k < |s| ==> b[o + k] as int == s[k] as int
  }

  /** The bytes of `x` lie at `o`. */
  predicate At(b: seq<byte>, o: nat, x: seq<byte>) {
    o + |x| <= |b| && forall k :: 0 <= k < |x| ==> b[o + k] == x[k]
  }

  lemma WordOfLE32(b: seq<byte>, o: nat, v: nat)
    requires v < 0x1_0000_0000 && At(b, o, LE32(v))
    ensures o + 4 <= |b| && Word(b, o, v)
  {
    var x := LE32(v);
    assert b[o + 0] == x[0] && b[o + 1] == x[1] && b[o + 2] == x[2] && b[o + 3] == x[3];
    U32OfLE32(v);
  }

  lemma HalfOfLE16(b: seq<byte>, o: nat, v: nat)
    requires v < 0x1_0000 && At(b, o, LE16(v))
    ensures o + 2 <= |b| && Half(b, o, v)
  {
    var x := LE16(v);
    assert b[o + 0] == x[0] && b[o + 1] == x[1];
  }

  lemma LettersAt(b: seq<byte>, o: nat, id: seq<byte>, s: string)
    requires |id| == |s| && At(b, o, id) && forall k :: 0 <= k < |s| ==> id[k] as int == s[k] as int
    ensures o + |s| <= |b| && Letters(b, o, s)
  {
  }

  lemma Rates(rate: nat, channels: nat)
    ensures 0 <= rate * channels
    ensures ByteRate(rate, channels) == Min(2 * (rate * channels), 0xFFFF_FFFF)
    ensures BlockAlign(channels) == Min(2 * channels, 0xFFFF)
  {
    MulNonnegative(rate, channels);
  }

  /** Where the fields of the header lie. */
  lemma RiffFields(n: nat, rate: nat, channels: nat)
    requires n <= MAX_SAMPLES && rate <= U32_MAX && channels <= U16_MAX
    ensures var h := Header(n, rate, channels);
            && At(h, 0, RIFF) && At(h, 4, LE32(36 + n * 2)) && At(h, 8, WAVE)
            && At(h, 36, DATA) && At(h, 40, LE32(n * 2))
  {
    hide LE16, LE32, ByteRate, BlockAlign;
  }

  lemma FormatFields(n: nat, rate: nat, channels: nat)
    requires n <= MAX_SAMPLES && rate <= U32_MAX && channels <= U16_MAX
    ensures var h := Header(n, rate, channels);
            && At(h, 12, FMT) && At(h, 16, LE32(16)) && At(h, 20, LE16(1)) && At(h, 22, LE16(channels))
            && At(h, 24, LE32(rate)) && At(h, 28, LE32(ByteRate(rate, channels)))
            && At(h, 32, LE16(BlockAlign(channels))) && At(h, 34, LE16(16))
  {
    hide LE16, LE32, ByteRate, BlockAlign;
  }

  /** The header, byte by byte: the RIFF size counts everything after it, the format chunk
      is 16 bytes of 16-bit PCM, the rates saturate, and the data size is that of the samples. */
  lemma HeaderBytes(n: nat, rate: nat, channels: nat)
    requires n <= MAX_SAMPLES && rate <= U32_MAX && channels <= U16_MAX
    ensures 0 <= rate * channels
    ensures var h := Header(n, rate, channels);
            && Letters(h, 0, "RIFF") && Word(h, 4, 44 + 2 * n - 8) && Letters(h, 8, "WAVE")
            && Letters(h, 12, "fmt ") && Word(h, 16, 16) && Half(h, 20, 1) && Half(h, 22, channels)
            && Word(h, 24, rate) && Word(h, 28, Min(2 * (rate * channels), 0xFFFF_FFFF))
            && Half(h, 32, Min(2 * channels, 0xFFFF)) && Half(h, 34, 16)
            && Letters(h, 36, "data") && Word(h, 40, 2 * n)
  {
    RiffFields(n, rate, channels);
    FormatFields(n, rate, channels);
    Rates(rate, channels);
    hide Header, LE32, LE16, At, Word, Half, Letters, ByteRate, BlockAlign;
    var h := Header(n, rate, channels);
    LettersAt(h, 0, RIFF, "RIFF");
    LettersAt(h, 8, WAVE, "WAVE");
    LettersAt(h, 12, FMT, "fmt ");
    LettersAt(h, 36, DATA, "data");
    WordOfLE32(h, 4, 36 + n * 2);
    WordOfLE32(h, 16, 16);
    WordOfLE32(h, 24, rate);
    WordOfLE32(h, 28, ByteRate(rate, channels));
    WordOfLE32(h, 40, n * 2);
    HalfOfLE16(h, 20, 1);
    HalfOfLE16(h, 22, channels);
    HalfOfLE16(h, 32, BlockAlign(channels));
    HalfOfLE16(h, 34, 16);
  }

  lemma ScanFindsDataAtOnce(n: nat, rest: seq<byte>)
    requires n < 0x1_0000_0000
    ensures Scan(DATA + LE32(n), rest, 0) == Ok(Found(n, rest))
  {
    var buf := DATA + LE32(n);
    assert buf[..4] == DATA && buf[4..8] == LE32(n);
    U32OfLE32(n);
  }

  /** What the reader makes of a canonical header and that many payload bytes. */
  lemma ParseCanonical(n: nat, rate: nat, channels: nat, p: seq<byte>, f32: seq<byte> -> real)
    requires n <= MAX_SAMPLES && rate <= U32_MAX && channels <= U16_MAX && |p| == 2 * n
    ensures Parse(Header(n, rate, channels) + p, f32) ==
              if channels == 0 || rate == 0 || 2 * n > MAX_DATA_SIZE then Err
              else Ok(Audio(Downmix(DecodePcm(p), channels), rate))
  {
    HeaderFields(n, rate, channels, p);
    U16OfLE16(channels);
    U16OfLE16(1);
    U16OfLE16(16);
    U32OfLE32(rate);
    ScanFindsDataAtOnce(n * 2, p);
    hide Header, LE16, LE32, U16, U32, Scan, Downmix, DecodePcm;
    assert p[..n * 2] == p;
  }

  /** What the reader makes of the writer's output, for every input: it is accepted exactly
      when there is a channel, a rate, and at most 500 MiB of payload. */
  lemma ParseOfEncode(samples: seq<real>, rate: nat, channels: nat, f32: seq<byte> -> real)
    requires rate <= U32_MAX && channels <= U16_MAX
    ensures Parse(Encode(samples, rate, channels), f32) ==
              if channels == 0 || rate == 0 || 2 * |Encoded(samples)| > 524_288_000 then Err
              else Ok(Audio(Downmix(DecodePcm(Payload(Encoded(samples))), channels), rate))
  {
    hide Parse, Header, Payload, Downmix, DecodePcm;
    ParseCanonical(|Encoded(samples)|, rate, channels, Payload(Encoded(samples)), f32);
  }

  lemma {:induction false} DecodePayload(s: seq<real>, i: nat)
    requires i < |s|
    ensures DecodePcm(Payload(s))[i] == Dequantize(Quantize(s[i]))
  {
    var front, v := s[..|s| - 1], Quantize(s[|s| - 1]);
    var p, tail := Payload(front), LE16(FromI16(v));
    assert Payload(s) == p + tail;
    hide LE16, FromI16, Quantize, Dequantize, Sample, Payload, DecodePcm;
    DecodePcmAt(p + tail, i);
    if i < |front| {
      DecodePayload(front, i);
      DecodePcmAt(p, i);
      LeftSlice(p, tail, 2 * i, 2 * i + 2);
    } else {
      RightSlice(p, tail);
      SampleOfLE16(v);
    }
  }

  lemma DecodePcmAt(data: seq<byte>, i: nat)
    requires 2 * i + 2 <= |data|
    ensures i < |DecodePcm(data)| && DecodePcm(data)[i] == Sample(data[2 * i..2 * i + 2])
  {
  }

  /** Sample `i` of the payload: its code modulo 65536, low byte first. */
  lemma {:induction false} PayloadBytes(s: seq<real>, i: nat)
    requires i < |s|
    ensures var p, v := Payload(s), Quantize(s[i]);
            p[2 * i] as int + 256 * p[2 * i + 1] as int == if v >= 0 then v else v + 65536
  {
    hide Quantize;
    var front := s[..|s| - 1];
    if i < |front| {
      PayloadBytes(front, i);
    } else {
      var v := Quantize(s[i]);
      assert Payload(s)[2 * i..2 * i + 2] == LE16(FromI16(v));
      assert Payload(s)[2 * i] == LE16(FromI16(v))[0] && Payload(s)[2 * i + 1] == LE16(FromI16(v))[1];
    }
  }

  // --------------------------------------------------------------- round trips

  lemma {:induction false} SumClose(f: seq<real>, g: seq<real>, e: real)
    requires |f| == |g| && forall i :: 0 <= i < |f| ==> -e <= f[i] - g[i] <= e
    ensures -(|f| as real * e) <= Sum(f) - Sum(g) <= |f| as real * e
  {
    if f == [] {
    } else {
      SumClose(f[..|f| - 1], g[..|g| - 1], e);
      OneMoreTerm(|f| - 1, |f|, e);
    }
  }

  lemma OneMoreTerm(n: nat, m: nat, e: real)
    requires m == n + 1
    ensures m as real * e == n as real * e + e
  {
    assert m as real == n as real + 1.0;
  }

  lemma MeanClose(f: seq<real>, g: seq<real>, e: real)
    requires f != [] && |f| == |g| && forall i :: 0 <= i < |f| ==> -e <= f[i] - g[i] <= e
    ensures -e <= Mean(f) - Mean(g) <= e
  {
    SumClose(f, g, e);
    QuotientClose(Sum(f), Sum(g), |f| as real, e);
  }

  lemma QuotientClose(x: real, y: real, n: real, e: real)
    requires n > 0.0 && -(n * e) <= x - y <= n * e
    ensures -e <= x / n - y / n <= e
  {
    var d := x / n - y / n;
    assert d * n == x - y;
    assert d > e ==> d * n > e * n;
    assert d < -e ==> d * n < -e * n;
  }

  function Clamped(s: seq<real>): (r: seq<real>)
    ensures |r| == |s| && forall i :: 0 <= i < |s| ==> r[i] == ClampUnit(s[i])
  {
    seq(|s|, i requires 0 <= i < |s| => ClampUnit(s[i]))
  }

  lemma DecodedClose(samples: seq<real>, j: nat)
    requires j < |samples|
    ensures -1.0 / 32768.0 <= DecodePcm(Payload(samples))[j] - Clamped(samples)[j] <= 1.0 / 32768.0
  {
    DecodePayload(samples, j);
    QuantizeError(samples[j]);
  }

  /** Writing and reading back: same rate, one mono sample per whole frame, each within one
      quantization step of the mean of its clamped inputs. */
  lemma RoundTrip(samples: seq<real>, rate: nat, channels: nat, f32: seq<byte> -> real)
    requires 1 <= rate <= U32_MAX && 1 <= channels <= U16_MAX
    requires 2 * |samples| <= MAX_DATA_SIZE
    ensures var r := Parse(Encode(samples, rate, channels), f32);
            && r.Ok? && r.value.rate == rate && |r.value.mono| == |samples| / channels
            && forall i :: 0 <= i < |samples| / channels ==>
                 -1.0 / 32768.0
                 <= r.value.mono[i] - Mean(Frame(Clamped(samples), channels, i)) <= 1.0 / 32768.0
  {
    assert Encoded(samples) == samples;
    ParseOfEncode(samples, rate, channels, f32);
    var decoded, clamped := DecodePcm(Payload(samples)), Clamped(samples);
    hide Encode, Parse, Payload, DecodePcm, Clamped, Mean, Frame;
    forall j | 0 <= j < |samples|
      ensures -1.0 / 32768.0 <= decoded[j] - clamped[j] <= 1.0 / 32768.0
    {
      DecodedClose(samples, j);
    }
    forall i | 0 <= i < |samples| / channels
      ensures -1.0 / 32768.0
              <= Downmix(decoded, channels)[i] - Mean(Frame(clamped, channels, i)) <= 1.0 / 32768.0
    {
      FrameClose(decoded, clamped, channels, i, 1.0 / 32768.0);
      if channels == 1 { FrameOfOne(decoded, i); }
    }
  }

  lemma FrameOfOne(s: seq<real>, i: nat)
    requires i < |s|
    ensures i < |s| / 1 && Mean(Frame(s, 1, i)) == s[i]
  {
    assert Frame(s, 1, i) == [s[i]];
    MeanOfOne(s[i]);
  }

  lemma MeanOfOne(x: real)
    ensures Mean([x]) == x
  {
    assert [x][..0] == [];
    assert Sum([x]) == Sum([x][..0]) + x == x;
  }

  lemma FrameClose(a: seq<real>, b: seq<real>, channels: nat, i: nat, e: real)
    requires |a| == |b| && channels >= 1 && i < |a| / channels
    requires forall j :: 0 <= j < |a| ==> -e <= a[j] - b[j] <= e
    ensures -e <= Mean(Frame(a, channels, i)) - Mean(Frame(b, channels, i)) <= e
  {
    FrameFits(|a|, channels, i);
    MeanClose(Frame(a, channels, i), Frame(b, channels, i), e);
  }

  lemma LE16OfSample(s: seq<byte>)
    requires |s| == 2
    ensures LE16(FromI16(Quantize(Sample(s)))) == s
  {
    var v := ToI16(U16(s));
    QuantizeExact(v);
    assert FromI16(v) == U16(s);
    hide Quantize, Dequantize, FromI16, ToI16;
    LE16OfU16(s);
  }

  lemma LE16OfU16(s: seq<byte>)
    requires |s| == 2
    ensures LE16(U16(s)) == s
  {
  }

  /** Decoding loses nothing: encoding the decoded samples gives the payload back. */
  lemma {:induction false} PayloadOfDecoded(p: seq<byte>)
    requires |p| % 2 == 0
    ensures Payload(DecodePcm(p)) == p
  {
    if p == [] {
    } else {
      var front, last := p[..|p| - 2], p[|p| - 2..];
      PayloadOfDecoded(front);
      DecodedFront(p, front, last);
      LE16OfSample(last);
      hide Sample, LE16, FromI16, Quantize;
      assert front + last == p;
    }
  }

  lemma DecodedFront(p: seq<byte>, front: seq<byte>, last: seq<byte>)
    requires |p| % 2 == 0 && |p| >= 2 && front == p[..|p| - 2] && last == p[|p| - 2..]
    ensures DecodePcm(p) == DecodePcm(front) + [Sample(last)]
  {
    hide Sample;
    var n := |front| / 2;
    forall i | 0 <= i < n ensures DecodePcm(p)[i] == DecodePcm(front)[i] {
      PrefixSlice(p, |p| - 2, 2 * i, 2 * i + 2);
    }
    assert DecodePcm(p)[n] == Sample(last) by { assert p[2 * n..2 * n + 2] == last; }
  }

  /** Any accepted mono PCM16 file with the canonical header is written again to the same
      bytes. */
  lemma ReencodeMono(bytes: seq<byte>, n: nat, rate: nat, f32: seq<byte> -> real)
    requires n <= MAX_SAMPLES && rate <= U32_MAX && |bytes| == 44 + 2 * n
    requires bytes[..44] == Header(n, rate, 1) && Parse(bytes, f32).Ok?
    ensures var r := Parse(bytes, f32).value;
            r.rate == rate && Encode(r.mono, r.rate, 1) == bytes
  {
    hide Parse, Header, Payload, Downmix, DecodePcm;
    var p := bytes[44..];
    assert bytes == Header(n, rate, 1) + p;
    ParseCanonical(n, rate, 1, p, f32);
    PayloadOfDecoded(p);
    assert Encoded(DecodePcm(p)) == DecodePcm(p);
  }

  /** In particular, every mono file the writer produced and the reader accepts. */
  lemma ReencodeWritten(samples: seq<real>, rate: nat, f32: seq<byte> -> real)
    requires 1 <= rate <= U32_MAX && 2 * |Encoded(samples)| <= MAX_DATA_SIZE
    ensures var bytes := Encode(samples, rate, 1);
            var r := Parse(bytes, f32);
            r.Ok? && Encode(r.value.mono, r.value.rate, 1) == bytes
  {
    hide Parse, Header, Payload, Downmix, DecodePcm;
    var bytes := Encode(samples, rate, 1);
    ParseOfEncode(samples, rate, 1, f32);
    assert bytes[..44] == Header(|Encoded(samples)|, rate, 1);
    ReencodeMono(bytes, |Encoded(samples)|, rate, f32);
  }

  // ---------------------------------------------------------------- the chunk scan

  /** A chunk that the scan passes over. */
  datatype Chunk = Chunk(id: seq<byte>, body: seq<byte>)

  predicate Skippable(c: Chunk) {
    |c.id| == 4 && c.id != DATA && 1 <= |c.body| <= MAX_DATA_SIZE
  }

  predicate AllSkippable(cs: seq<Chunk>) {
    forall i :: 0 <= i < |cs| ==> Skippable(cs[i])
  }

  /** A chunk as it lies in the file: identifier, length, body. */
  function ChunkBytes(c: Chunk): (r: seq<byte>)
    requires Skippable(c)
    ensures |r| == 8 + |c.body|
  {
    c.id + LE32(|c.body|) + c.body
  }

  function ChunksBytes(cs: seq<Chunk>): seq<byte>
    requires AllSkippable(cs)
  {
    if cs == [] then [] else ChunkBytes(cs[0]) + ChunksBytes(cs[1..])
  }

  /** What the scan reads is `cs`, then a data header for `f.size` bytes, then `f.rest`. */
  predicate Layout(buf: seq<byte>, rest: seq<byte>, cs: seq<Chunk>, f: Found)
    requires |buf| == 8
  {
    && AllSkippable(cs) && f.size < 0x1_0000_0000
    && buf + rest == ChunksBytes(cs) + (DATA + LE32(f.size)) + f.rest
  }

  /** The scan of a stream whose first eight bytes are the next chunk header. */
  function ScanStream(bytes: seq<byte>, skips: nat): Result<Found>
    requires |bytes| >= 8
  {
    Scan(bytes[..8], bytes[8..], skips)
  }

  lemma ScanAtData(n: nat, rest: seq<byte>, skips: nat)
    requires n < 0x1_0000_0000
    ensures ScanStream((DATA + LE32(n)) + rest, skips) == Ok(Found(n, rest))
  {
    hide LE32, U32;
    var bytes := (DATA + LE32(n)) + rest;
    assert bytes[..8] == DATA + LE32(n) && bytes[8..] == rest;
    assert bytes[..8][..4] == DATA && bytes[..8][4..8] == LE32(n);
    U32OfLE32(n);
  }

  /** One chunk is passed over, unless it is the 257th. */
  lemma ScanPastChunk(c: Chunk, tail: seq<byte>, skips: nat)
    requires Skippable(c) && |tail| >= 8
    ensures ScanStream(ChunkBytes(c) + tail, skips)
         == if skips < MAX_CHUNK_SCAN_ITERATIONS then ScanStream(tail, skips + 1) else Err
  {
    hide LE32, U32;
    var bytes, s := ChunkBytes(c) + tail, |c.body|;
    var buf, rest := bytes[..8], bytes[8..];
    assert buf == c.id + LE32(s) && rest == c.body + tail;
    assert buf[..4] == c.id && buf[4..8] == LE32(s);
    U32OfLE32(s);
    assert rest[s..s + 8] == tail[..8] && rest[s + 8..] == tail[8..];
  }

  /** Many chunks are passed over, unless there are too many. */
  lemma {:induction false} ScanPastChunks(cs: seq<Chunk>, tail: seq<byte>, skips: nat)
    requires AllSkippable(cs) && |tail| >= 8 && skips <= MAX_CHUNK_SCAN_ITERATIONS
    ensures ScanStream(ChunksBytes(cs) + tail, skips)
         == if skips + |cs| <= MAX_CHUNK_SCAN_ITERATIONS then ScanStream(tail, skips + |cs|) else Err
    decreases |cs|
  {
    hide ScanStream;
    if cs == [] {
      assert ChunksBytes(cs) + tail == tail;
    } else {
      var more := ChunksBytes(cs[1..]) + tail;
      assert ChunksBytes(cs) + tail == ChunkBytes(cs[0]) + more;
      ScanPastChunk(cs[0], more, skips);
      if skips < MAX_CHUNK_SCAN_ITERATIONS { ScanPastChunks(cs[1..], tail, skips + 1); }
    }
  }

  /** A file laid out as chunks before its data is scanned to exactly its data when there are
      at most 256 of them, and rejected otherwise. */
  lemma ScanAcceptsLayout(buf: seq<byte>, rest: seq<byte>, skips: nat, cs: seq<Chunk>, f: Found)
    requires |buf| == 8 && Layout(buf, rest, cs, f) && skips <= MAX_CHUNK_SCAN_ITERATIONS
    ensures Scan(buf, rest, skips) == if skips + |cs| <= MAX_CHUNK_SCAN_ITERATIONS then Ok(f) else Err
  {
    hide LE32, Scan, ChunksBytes;
    var tail := (DATA + LE32(f.size)) + f.rest;
    assert buf + rest == ChunksBytes(cs) + tail;
    assert (buf + rest)[..8] == buf && (buf + rest)[8..] == rest;
    ScanPastChunks(cs, tail, skips);
    ScanAtData(f.size, f.rest, skips + |cs|);
  }

  /** Every successful scan read such a layout. */
  lemma {:induction false} ScanGivesLayout(buf: seq<byte>, rest: seq<byte>, skips: nat) returns (cs: seq<Chunk>)
    requires |buf| == 8 && Scan(buf, rest, skips).Ok?
    ensures Layout(buf, rest, cs, Scan(buf, rest, skips).value)
    ensures cs == [] || skips + |cs| <= MAX_CHUNK_SCAN_ITERATIONS
    decreases |rest|
  {
    LE32OfU32(buf[4..8]);
    hide U32, LE32;
    assert buf == buf[..4] + buf[4..8];
    if buf[..4] == DATA {
      cs := [];
    } else {
      var s := U32(buf[4..8]);
      var more := ScanGivesLayout(rest[s..s + 8], rest[s + 8..], skips + 1);
      cs := [Chunk(buf[..4], rest[..s])] + more;
      PrependChunk(buf, rest, s, more, Scan(buf, rest, skips).value);
    }
  }

  lemma Regroup(a: seq<byte>, b: seq<byte>, c: seq<byte>, d: seq<byte>)
    ensures a + (b + c + d) == (a + b) + c + d
  {
  }

  /** A header and what follows, as one chunk and what follows it. */
  lemma ReadChunk(buf: seq<byte>, rest: seq<byte>, s: nat)
    requires |buf| == 8 && buf[..4] != DATA && 1 <= s <= MAX_DATA_SIZE && s + 8 <= |rest|
    requires buf[4..8] == LE32(s)
    ensures buf + rest == ChunkBytes(Chunk(buf[..4], rest[..s])) + (rest[s..s + 8] + rest[s + 8..])
  {
    hide LE32;
    assert buf == buf[..4] + buf[4..8];
    assert rest == rest[..s] + (rest[s..s + 8] + rest[s + 8..]);
  }

  lemma PrependBytes(c: Chunk, more: seq<Chunk>)
    requires Skippable(c) && AllSkippable(more)
    ensures AllSkippable([c] + more) && ChunksBytes([c] + more) == ChunkBytes(c) + ChunksBytes(more)
  {
    hide ChunkBytes;
    assert ([c] + more)[1..] == more;
  }

  lemma PrependChunk(buf: seq<byte>, rest: seq<byte>, s: nat, more: seq<Chunk>, f: Found)
    requires |buf| == 8 && buf[..4] != DATA && 1 <= s <= MAX_DATA_SIZE && s + 8 <= |rest|
    requires buf[4..8] == LE32(s) && Layout(rest[s..s + 8], rest[s + 8..], more, f)
    ensures Layout(buf, rest, [Chunk(buf[..4], rest[..s])] + more, f)
  {
    hide LE32, ChunksBytes, AllSkippable, ChunkBytes;
    var c, head := Chunk(buf[..4], rest[..s]), DATA + LE32(f.size);
    PrependBytes(c, more);
    ReadChunk(buf, rest, s);
    Regroup(ChunkBytes(c), ChunksBytes(more), head, f.rest);
  }

  /** A file is accepted exactly when its header is valid and what follows is at most 256
      skippable chunks, a data header for at most 500 MiB, and that many bytes, in a
      supported format; and then exactly those bytes are decoded. */
  lemma ParseAcceptsLayout(bytes: seq<byte>, f32: seq<byte> -> real, cs: seq<Chunk>, f: Found)
    requires |bytes| >= 44 && bytes[0..4] == RIFF && bytes[8..12] == WAVE
    requires U16(bytes[22..24]) >= 1 && U32(bytes[24..28]) >= 1
    requires Layout(bytes[36..44], bytes[44..], cs, f)
    ensures Parse(bytes, f32) ==
              if |cs| > MAX_CHUNK_SCAN_ITERATIONS || f.size > MAX_DATA_SIZE || |f.rest| < f.size then Err
              else
                var d := Decode(U16(bytes[20..22]), U16(bytes[34..36]), f.rest[..f.size], f32);
                if d.Err? then Err else Ok(Audio(Downmix(d.value, U16(bytes[22..24])), U32(bytes[24..28])))
  {
    ScanAcceptsLayout(bytes[36..44], bytes[44..], 0, cs, f);
  }

  /** Every accepted file has that layout. */
  lemma ParseGivesLayout(bytes: seq<byte>, f32: seq<byte> -> real) returns (cs: seq<Chunk>, f: Found)
    requires Parse(bytes, f32).Ok?
    ensures |bytes| >= 44 && |cs| <= MAX_CHUNK_SCAN_ITERATIONS
    ensures Layout(bytes[36..44], bytes[44..], cs, f)
    ensures |bytes| == 44 + |ChunksBytes(cs)| + |f.rest|
    ensures f.size <= MAX_DATA_SIZE && f.size <= |f.rest|
    ensures Decode(U16(bytes[20..22]), U16(bytes[34..36]), f.rest[..f.size], f32).Ok?
  {
    f := Scan(bytes[36..44], bytes[44..], 0).value;
    cs := ScanGivesLayout(bytes[36..44], bytes[44..], 0);
    LayoutLength(bytes[36..44], bytes[44..], cs, f);
  }

  lemma LayoutLength(buf: seq<byte>, rest: seq<byte>, cs: seq<Chunk>, f: Found)
    requires |buf| == 8 && Layout(buf, rest, cs, f)
    ensures |rest| == |ChunksBytes(cs)| + |f.rest|
  {
    hide ChunksBytes, LE32;
    assert |buf + rest| == |ChunksBytes(cs) + (DATA + LE32(f.size)) + f.rest|;
  }

  // --------------------------------------------------------------- odd-sized chunks

  /** The RIFF rules follow an odd-sized body by one pad byte. */
  function PadBytes(n: nat): seq<byte> {
    if n % 2 == 0 then [] else [0]
  }

  /** Chunks as a conforming file holds them, each body followed by its pad. */
  function PaddedChunks(cs: seq<Chunk>): seq<byte>
    requires AllSkippable(cs)
  {
    if cs == [] then [] else ChunkBytes(cs[0]) + PadBytes(|cs[0].body|) + PaddedChunks(cs[1..])
  }

  /** A conforming stream from the first chunk after the format: chunks, then the data. */
  function RiffStream(cs: seq<Chunk>, payload: seq<byte>): (r: seq<byte>)
    requires AllSkippable(cs) && |payload| < 0x1_0000_0000
    ensures |r| >= 8
  {
    PaddedChunks(cs) + ((DATA + LE32(|payload|)) + (payload + PadBytes(|payload|)))
  }

  /** The scan stops at the data chunk of the stream: its size, and its payload and pad. */
  predicate FindsData(cs: seq<Chunk>, payload: seq<byte>)
    requires AllSkippable(cs) && |payload| < 0x1_0000_0000
  {
    ScanStream(RiffStream(cs, payload), 0) == Ok(Found(|payload|, payload + PadBytes(|payload|)))
  }

  predicate EvenButLast(cs: seq<Chunk>) {
    forall i :: 0 <= i < |cs| - 1 ==> |cs[i].body| % 2 == 0
  }

  predicate LastOdd(cs: seq<Chunk>) {
    cs != [] && |cs[|cs| - 1].body| % 2 == 1
  }

  /** Only the last chunk can bring a pad byte. */
  lemma {:induction false} PadsOnlyLast(cs: seq<Chunk>)
    requires AllSkippable(cs) && EvenButLast(cs)
    ensures PaddedChunks(cs) == ChunksBytes(cs) + if LastOdd(cs) then [0] else []
  {
    hide LE32, ChunkBytes;
    if |cs| == 1 {
      assert cs[1..] == [];
    } else if cs != [] {
      assert cs[1..][|cs| - 2] == cs[|cs| - 1];
      PadsOnlyLast(cs[1..]);
    }
  }

  /** What a successful scan leaves is no longer than what it had, and shorter by more than a
      header when it did not start at the data. */
  lemma {:induction false} ScanShrinks(buf: seq<byte>, rest: seq<byte>, skips: nat)
    requires |buf| == 8 && Scan(buf, rest, skips).Ok?
    ensures |Scan(buf, rest, skips).value.rest| + (if buf[..4] == DATA then 0 else 9) <= |rest|
    decreases |rest|
  {
    if buf[..4] != DATA {
      var s := U32(buf[4..8]);
      ScanShrinks(rest[s..s + 8], rest[s + 8..], skips + 1);
    }
  }

  /** For every conforming stream: the scan finds the data exactly when the padded chunks,
      read without regard for pads, are themselves at most 256 whole chunks. What the
      payload holds never matters. */
  lemma FindsDataExactly(cs: seq<Chunk>, payload: seq<byte>)
    requires AllSkippable(cs) && |payload| < 0x1_0000_0000
    ensures FindsData(cs, payload) <==> exists ds :: ReadsAs(cs, ds)
  {
    hide ScanStream, ChunksBytes, PaddedChunks, LE32;
    var after := payload + PadBytes(|payload|);
    var data := (DATA + LE32(|payload|)) + after;
    if exists ds :: ReadsAs(cs, ds) {
      var ds :| ReadsAs(cs, ds);
      ScanPastChunks(ds, data, 0);
      ScanAtData(|payload|, after, |ds|);
    }
    if FindsData(cs, payload) { var ds := FoundReads(cs, payload); }
  }

  /** The padded chunks `cs` have the bytes of the chunks `ds` without pads. */
  predicate ReadsAs(cs: seq<Chunk>, ds: seq<Chunk>)
    requires AllSkippable(cs)
  {
    AllSkippable(ds) && |ds| <= MAX_CHUNK_SCAN_ITERATIONS && ChunksBytes(ds) == PaddedChunks(cs)
  }

  lemma FoundReads(cs: seq<Chunk>, payload: seq<byte>) returns (ds: seq<Chunk>)
    requires AllSkippable(cs) && |payload| < 0x1_0000_0000 && FindsData(cs, payload)
    ensures ReadsAs(cs, ds)
  {
    hide ChunksBytes, PaddedChunks, LE32, Scan;
    var stream := RiffStream(cs, payload);
    var data := (DATA + LE32(|payload|)) + (payload + PadBytes(|payload|));
    ds := ScanGivesLayout(stream[..8], stream[8..], 0);
    assert stream[..8] + stream[8..] == stream;
    assert ChunksBytes(ds) + data == PaddedChunks(cs) + data;
    CancelTail(ChunksBytes(ds), PaddedChunks(cs), data);
  }

  lemma CancelTail(a: seq<byte>, b: seq<byte>, tail: seq<byte>)
    requires a + tail == b + tail
    ensures a == b
  {
    assert |a| == |b|;
    assert (a + tail)[..|a|] == a && (b + tail)[..|b|] == b;
  }

  /** The reader does not skip pad bytes. On a conforming stream whose chunks before the data,
      all but the last, have even sizes, the scan finds the data exactly when there are at
      most 256 chunks and the last one is even too. */
  lemma PaddedScan(cs: seq<Chunk>, payload: seq<byte>)
    requires AllSkippable(cs) && EvenButLast(cs) && |payload| < 0x1_0000_0000
    ensures FindsData(cs, payload) <==> |cs| <= 256 && !LastOdd(cs)
    ensures |cs| > 256 ==> ScanStream(RiffStream(cs, payload), 0) == Err
  {
    hide ScanStream, ChunksBytes, PaddedChunks, LE32, LastOdd;
    var after := payload + PadBytes(|payload|);
    var data := (DATA + LE32(|payload|)) + after;
    var pad: seq<byte> := if LastOdd(cs) then [0] else [];
    PadsOnlyLast(cs);
    assert RiffStream(cs, payload) == ChunksBytes(cs) + (pad + data);
    ScanPastChunks(cs, pad + data, 0);
    if |cs| <= MAX_CHUNK_SCAN_ITERATIONS {
      if LastOdd(cs) {
        PadHidesData(data, |cs|, |payload|, after);
      } else {
        assert pad + data == data;
        ScanAtData(|payload|, after, |cs|);
      }
    }
  }

  /** Read one byte early, the scan can no longer stop at the data. */
  lemma PadHidesData(data: seq<byte>, skips: nat, n: nat, after: seq<byte>)
    requires |data| == 8 + |after|
    ensures ScanStream([0] + data, skips) != Ok(Found(n, after))
  {
    var bytes := [0] + data;
    var buf, rest := bytes[..8], bytes[8..];
    assert buf[..4][0] == 0 != DATA[0];
    if Scan(buf, rest, skips).Ok? { ScanShrinks(buf, rest, skips); }
  }

  /** With a payload below 16 MiB the odd case is rejected outright: the misread length runs
      past the end of the file. */
  lemma ShortOddIsRejected(cs: seq<Chunk>, payload: seq<byte>)
    requires AllSkippable(cs) && EvenButLast(cs) && LastOdd(cs) && |payload| < 0x100_0000
    ensures ScanStream(RiffStream(cs, payload), 0) == Err
  {
    hide ScanStream, ChunksBytes, PaddedChunks, LE32;
    var data := (DATA + LE32(|payload|)) + (payload + PadBytes(|payload|));
    PadsOnlyLast(cs);
    assert RiffStream(cs, payload) == ChunksBytes(cs) + ([0] + data);
    ScanPastChunks(cs, [0] + data, 0);
    MisreadHeader(|payload|, payload + PadBytes(|payload|), |cs|);
  }

  /** An odd chunk further from the data can be survived: misread, the header after its pad
      can carry the scan back to the true data header. So evenness of all chunks is not
      necessary in general. */
  lemma OddChunkCanResync(body: seq<byte>, payload: seq<byte>)
    requires |body| == 502 && |payload| < 0x1_0000_0000
    ensures var cs := [Chunk([1, 1, 1, 1], [0]), Chunk([2, 2, 2, 1], [0, 0]), Chunk([3, 3, 3, 3], body)];
            AllSkippable(cs) && !EvenButLast(cs) && FindsData(cs, payload)
  {
    var a, b, c := Chunk([1, 1, 1, 1], [0]), Chunk([2, 2, 2, 1], [0, 0]), Chunk([3, 3, 3, 3], body);
    var cs := [a, b, c];
    assert |cs[0].body| % 2 == 1;
    var misread := Chunk([0, 2, 2, 2], [0, 0, 0] + (c.id + LE32(502) + body));
    ResyncBytes(a, b, c, misread);
    var after := payload + PadBytes(|payload|);
    var data := (DATA + LE32(|payload|)) + after;
    hide LE32, ScanStream, ChunksBytes, PaddedChunks;
    ScanPastChunks([a, misread], data, 0);
    ScanAtData(|payload|, after, 2);
  }

  lemma ResyncBytes(a: Chunk, b: Chunk, c: Chunk, misread: Chunk)
    requires a == Chunk([1, 1, 1, 1], [0]) && b == Chunk([2, 2, 2, 1], [0, 0])
    requires c.id == [3, 3, 3, 3] && |c.body| == 502
    requires misread == Chunk([0, 2, 2, 2], [0, 0, 0] + (c.id + LE32(502) + c.body))
    ensures AllSkippable([a, b, c]) && AllSkippable([a, misread])
    ensures PaddedChunks([a, b, c]) == ChunksBytes([a, misread])
  {
    assert Skippable(c) && Skippable(misread) by { assert c.id[0] != DATA[0] && misread.id[0] != DATA[0]; }
    assert Skippable(a) && Skippable(b) by { assert a.id[0] != DATA[0] && b.id[0] != DATA[0]; }
    UnfoldTwo(a, misread);
    UnfoldThree(a, b, c);
    SmallLengths();
    var tail := c.id + LE32(502) + c.body;
    assert |misread.body| == 513;
    assert ChunkBytes(b) == [2, 2, 2, 1, 2, 0, 0, 0, 0, 0];
    assert ChunkBytes(misread) == [0, 2, 2, 2, 1, 2, 0, 0] + ([0, 0, 0] + tail);
    hide LE32;
    assert [0] + [2, 2, 2, 1, 2, 0, 0, 0, 0, 0] + tail == [0, 2, 2, 2, 1, 2, 0, 0] + ([0, 0, 0] + tail);
  }

  lemma SmallLengths()
    ensures LE32(1) == [1, 0, 0, 0] && LE32(2) == [2, 0, 0, 0] && LE32(513) == [1, 2, 0, 0]
  {
  }

  lemma UnfoldTwo(a: Chunk, b: Chunk)
    requires AllSkippable([a, b])
    ensures Skippable(a) && Skippable(b) && ChunksBytes([a, b]) == ChunkBytes(a) + ChunkBytes(b)
  {
    hide ChunkBytes;
    assert Skippable([a, b][0]) && Skippable([a, b][1]);
    assert [a, b][1..] == [b] && [b][1..] == [];
    assert ChunksBytes([b]) == ChunkBytes(b);
  }

  /** Only the first of the three has a pad. */
  lemma UnfoldThree(a: Chunk, b: Chunk, c: Chunk)
    requires AllSkippable([a, b, c]) && |a.body| % 2 == 1 && |b.body| % 2 == 0 && |c.body| % 2 == 0
    ensures Skippable(a) && Skippable(b) && Skippable(c)
    ensures PaddedChunks([a, b, c]) == ChunkBytes(a) + ([0] + ChunkBytes(b) + ChunkBytes(c))
  {
    hide ChunkBytes;
    var cs := [a, b, c];
    assert Skippable(cs[0]) && Skippable(cs[1]) && Skippable(cs[2]);
    assert cs[1..] == [b, c] && [b, c][1..] == [c] && [c][1..] == [];
    assert PaddedChunks([c]) == ChunkBytes(c);
    assert PaddedChunks([b, c]) == ChunkBytes(b) + ChunkBytes(c);
  }

  /** Read one byte early, the data header looks like a chunk longer than the file. */
  lemma MisreadHeader(n: nat, after: seq<byte>, skips: nat)
    requires n < 0x100_0000 && |after| <= n + 1
    ensures ScanStream([0] + ((DATA + LE32(n)) + after), skips) == Err
  {
    var tail: seq<byte> := [0] + ((DATA + LE32(n)) + after);
    var buf, le := tail[..8], LE32(n);
    assert buf[0] == 0 && buf[..4] != DATA by { assert buf[..4][0] == 0; }
    assert tail[4] == DATA[3] == 0x61 && tail[5] == le[0] && tail[6] == le[1] && tail[7] == le[2];
    ShiftedLength(n, buf[4..8]);
  }

  lemma ShiftedLength(n: nat, s: seq<byte>)
    requires n < 0x100_0000 && |s| == 4 && s[0] == 0x61
    requires s[1] == LE32(n)[0] && s[2] == LE32(n)[1] && s[3] == LE32(n)[2]
    ensures U32(s) == 0x61 + 256 * n
  {
    U32OfLE32(n);
    assert LE32(n)[3] == 0;
  }
}
