/**
 * `encodeWav` of the front end: mono 16-bit PCM samples serialised into a
 * canonical 44-byte RIFF/WAVE header (chunks `RIFF`, `fmt ` with
 * WAVE_FORMAT_PCM = 1, and `data`, all little-endian, as laid out in the
 * Microsoft/IBM Multimedia Programming Interface and Data Specifications
 * 1.0) followed by the samples, written in place into a zeroed buffer.
 */
module Wav {

  type Byte = b: int | 0 <= b < 256

  const NumChannels: nat := 1
  const BitsPerSample: nat := 16
  const BytesPerSample: nat := 2
  const BlockAlign: nat := 2
  const HeaderSize: nat := 44

  const TwoTo16: int := 0x1_0000
  const TwoTo32: int := 0x1_0000_0000

  // ---------------------------------------------------------------------------
  // DataView encodings
  // ---------------------------------------------------------------------------

  /** `charCodeAt` of an ASCII tag. */
  function Ascii(s: string): (r: seq<Byte>)
    requires forall i :: 0 <= i < |s| ==> s[i] < 128 as char
    ensures |r| == |s|
    ensures forall i :: 0 <= i < |s| ==> r[i] == s[i] as int
  {
    seq(|s|, i requires 0 <= i < |s| => s[i] as int)
  }

  /** `setUint16(_, v, true)`: v taken modulo 2^16, low byte first. */
  function U16Bytes(v: int): (r: seq<Byte>)
    ensures |r| == 2
  {
    var w := v % TwoTo16;
    [w % 256, w / 256]
  }

  /** `setUint32(_, v, true)`: v taken modulo 2^32, least significant byte first. */
  function U32Bytes(v: int): (r: seq<Byte>)
    ensures |r| == 4
  {
    var w := v % TwoTo32;
    [w % 256, (w / 256) % 256, (w / 0x1_0000) % 256, w / 0x100_0000]
  }

  /** A little-endian unsigned 16-bit read, as a decoder of the file does it. */
  function ReadU16(s: seq<Byte>, off: nat): (v: nat)
    requires off + 2 <= |s|
    ensures v < TwoTo16
  {
    s[off] as int + 256 * (s[off + 1] as int)
  }

  /** A little-endian signed (two's complement) 16-bit read. */
  function ReadI16(s: seq<Byte>, off: nat): (v: int)
    requires off + 2 <= |s|
    ensures -32768 <= v < 32768
  {
    var u := ReadU16(s, off);
    if u >= 32768 then u - TwoTo16 else u
  }

  /** A little-endian unsigned 32-bit read. */
  function ReadU32(s: seq<Byte>, off: nat): (v: nat)
    requires off + 4 <= |s|
    ensures v < TwoTo32
  {
    s[off] as int + 256 * (s[off + 1] as int) + 0x1_0000 * (s[off + 2] as int) + 0x100_0000 * (s[off + 3] as int)
  }

  lemma U16RoundTrip(v: int)
    ensures ReadU16(U16Bytes(v), 0) == v % TwoTo16
  {
    var w := v % TwoTo16;
    assert w == 256 * (w / 256) + w % 256;
  }

  /** `setInt16` stores the two's-complement bits of an in-range value, which read back as that value. */
  lemma I16RoundTrip(v: int)
    requires -32768 <= v < 32768
    ensures ReadI16(U16Bytes(v), 0) == v
  {
    U16RoundTrip(v);
  }

  lemma U32RoundTrip(v: int)
    ensures ReadU32(U32Bytes(v), 0) == v % TwoTo32
  {
    var w := v % TwoTo32;
    var a, b, c := w / 256, w / 0x1_0000, w / 0x100_0000;
    assert w == 256 * a + w % 256;
    assert a == 256 * b + a % 256;
    assert b == 256 * c + b % 256;
  }

  // ---------------------------------------------------------------------------
  // Samples
  // ---------------------------------------------------------------------------

  /** `Math.max(-1, Math.min(1, s))`. */
  function Clamp(s: real): (c: real)
    ensures -1.0 <= c <= 1.0
    ensures -1.0 <= s <= 1.0 ==> c == s
  {
    if s > 1.0 then 1.0 else if s < -1.0 then -1.0 else s
  }

  /** ToInt16's first step: truncation toward zero. */
  function Trunc(x: real): (r: int)
    ensures x >= 0.0 ==> r as real <= x < r as real + 1.0
    ensures x < 0.0 ==> r as real - 1.0 < x <= r as real
  {
    if x >= 0.0 then x.Floor else -((-x).Floor)
  }

  /** The 16-bit value stored for a sample: clamped, scaled by 0x8000 below zero and 0x7fff above, truncated. */
  function Pcm(s: real): (v: int)
  {
    var c := Clamp(s);
    Trunc(if c < 0.0 then c * 32768.0 else c * 32767.0)
  }

  /** Every sample fits a signed 16-bit word, full scale saturates, and the sign is kept. */
  lemma PcmSpec(s: real)
    ensures -32768 <= Pcm(s) <= 32767
    ensures s >= 1.0 ==> Pcm(s) == 32767
    ensures s <= -1.0 ==> Pcm(s) == -32768
    ensures Pcm(s) > 0 ==> s > 0.0
    ensures Pcm(s) < 0 ==> s < 0.0
    ensures s == 0.0 ==> Pcm(s) == 0
  {
    var c := Clamp(s);
    if c < 0.0 {
      assert -32768.0 <= c * 32768.0 < 0.0;
    } else {
      assert 0.0 <= c * 32767.0 <= 32767.0;
    }
  }

  /** The bytes of the first `k` samples. */
  function SampleBytes(samples: seq<real>, k: nat): (r: seq<Byte>)
    requires k <= |samples|
    ensures |r| == 2 * k
  {
    if k == 0 then [] else SampleBytes(samples, k - 1) + U16Bytes(Pcm(samples[k - 1]))
  }

  // ---------------------------------------------------------------------------
  // The header
  // ---------------------------------------------------------------------------

  /** The RIFF chunk descriptor: tag, size of the rest of the file, format tag (bytes 0-11). */
  function RiffPart(n: nat): (r: seq<Byte>)
    ensures |r| == 12
  {
    Ascii("RIFF") + U32Bytes(36 + n * BytesPerSample) + Ascii("WAVE")
  }

  /** The first half of the `fmt ` sub-chunk: tag, chunk size 16, format 1, channel count (bytes 12-23). */
  function FmtCodec(): (r: seq<Byte>)
    ensures |r| == 12
  {
    Ascii("fmt ") + U32Bytes(16) + U16Bytes(1) + U16Bytes(NumChannels)
  }

  /** The second half: sample rate, byte rate, block align, bits per sample (bytes 24-35). */
  function FmtRates(sampleRate: nat): (r: seq<Byte>)
    ensures |r| == 12
  {
    U32Bytes(sampleRate) + U32Bytes(sampleRate * BlockAlign) + U16Bytes(BlockAlign) + U16Bytes(BitsPerSample)
  }

  /** The `fmt ` sub-chunk (bytes 12-35). */
  function FmtPart(sampleRate: nat): (r: seq<Byte>)
    ensures |r| == 24
  {
    FmtCodec() + FmtRates(sampleRate)
  }

  /** The `data` sub-chunk header (bytes 36-43). */
  function DataPart(n: nat): (r: seq<Byte>)
    ensures |r| == 8
  {
    Ascii("data") + U32Bytes(n * BytesPerSample)
  }

  /** The header for `n` samples at `sampleRate`, field by field in file order. */
  function Header(n: nat, sampleRate: nat): (h: seq<Byte>)
    ensures |h| == HeaderSize
  {
    RiffPart(n) + FmtPart(sampleRate) + DataPart(n)
  }

  /** The whole file `encodeWav` produces. */
  function WavFile(samples: seq<real>, sampleRate: nat): (r: seq<Byte>)
    ensures |r| == HeaderSize + 2 * |samples|
  {
    Header(|samples|, sampleRate) + SampleBytes(samples, |samples|)
  }

  // ---------------------------------------------------------------------------
  // Writing in place
  // ---------------------------------------------------------------------------

  /** The buffer after `bytes` have been stored from offset `off`. */
  function Spliced(s: seq<Byte>, off: nat, bytes: seq<Byte>): (r: seq<Byte>)
    requires off + |bytes| <= |s|
    ensures |r| == |s|
  {
    s[..off] + bytes + s[off + |bytes|..]
  }

  /**
   * Writing the next field right after a correctly written prefix extends
   * that prefix, and leaves every byte from `end` onward as it was.
   */
  lemma PrefixStep(s: seq<Byte>, off: nat, bytes: seq<Byte>, prefix: seq<Byte>, end: nat)
    requires off + |bytes| <= end <= |s| && s[..off] == prefix
    ensures Spliced(s, off, bytes)[..off + |bytes|] == prefix + bytes
    ensures Spliced(s, off, bytes)[end..] == s[end..]
  {
    var r := Spliced(s, off, bytes);
    assert r[..off + |bytes|] == s[..off] + bytes;
  }

  /** `view.setUint8` over the bytes of a string, or any other byte run. */
  method WriteBytes(view: array<Byte>, off: nat, bytes: seq<Byte>)
    requires off + |bytes| <= view.Length
    modifies view
    ensures view[..] == Spliced(old(view[..]), off, bytes)
  {
    var i := 0;
    while i < |bytes|
      invariant 0 <= i <= |bytes|
      invariant forall j :: 0 <= j < view.Length ==>
        view[j] == (if off <= j < off + i then bytes[j - off] else old(view[j]))
    {
      view[off + i] := bytes[i];
      i := i + 1;
    }
    assert view[..] == Spliced(old(view[..]), off, bytes);
  }

  /** `writeStr(offset, str)`. */
  method WriteStr(view: array<Byte>, off: nat, str: string)
    requires forall i :: 0 <= i < |str| ==> str[i] < 128 as char
    requires off + |str| <= view.Length
    modifies view
    ensures view[..] == Spliced(old(view[..]), off, Ascii(str))
  {
    WriteBytes(view, off, Ascii(str));
  }

  method SetUint16(view: array<Byte>, off: nat, v: int)
    requires off + 2 <= view.Length
    modifies view
    ensures view[..] == Spliced(old(view[..]), off, U16Bytes(v))
  {
    WriteBytes(view, off, U16Bytes(v));
  }

  /** `setInt16` stores the same bits as `setUint16` of the value modulo 2^16. */
  method SetInt16(view: array<Byte>, off: nat, v: int)
    requires off + 2 <= view.Length
    modifies view
    ensures view[..] == Spliced(old(view[..]), off, U16Bytes(v))
  {
    WriteBytes(view, off, U16Bytes(v));
  }

  method SetUint32(view: array<Byte>, off: nat, v: int)
    requires off + 4 <= view.Length
    modifies view
    ensures view[..] == Spliced(old(view[..]), off, U32Bytes(v))
  {
    WriteBytes(view, off, U32Bytes(v));
  }

  /** Bytes 0-11: `writeStr(0, "RIFF")`, the RIFF size at 4, `writeStr(8, "WAVE")`. */
  method WriteRiff(view: array<Byte>, n: nat)
    requires view.Length >= HeaderSize
    modifies view
    ensures view[..12] == RiffPart(n)
    ensures view[12..] == old(view[12..])
  {
    var dataSize := n * BytesPerSample;
    ghost var p: seq<Byte> := [];
    ghost var s := view[..];
    WriteStr(view, 0, "RIFF");
    PrefixStep(s, 0, Ascii("RIFF"), p, 12);
    p := p + Ascii("RIFF");

    s := view[..];
    SetUint32(view, 4, 36 + dataSize);
    PrefixStep(s, 4, U32Bytes(36 + dataSize), p, 12);
    p := p + U32Bytes(36 + dataSize);

    s := view[..];
    WriteStr(view, 8, "WAVE");
    PrefixStep(s, 8, Ascii("WAVE"), p, 12);
  }

  /** Bytes 12-23: the `fmt ` tag, its size, the format and the channel count. */
  method WriteFmtCodec(view: array<Byte>, ghost pre: seq<Byte>)
    requires view.Length >= HeaderSize && view[..12] == pre
    modifies view
    ensures view[..24] == pre + FmtCodec()
    ensures view[24..] == old(view[24..])
  {
    ghost var p := pre;
    ghost var s := view[..];
    WriteStr(view, 12, "fmt ");
    PrefixStep(s, 12, Ascii("fmt "), p, 24);
    p := p + Ascii("fmt ");

    s := view[..];
    SetUint32(view, 16, 16);
    PrefixStep(s, 16, U32Bytes(16), p, 24);
    p := p + U32Bytes(16);

    s := view[..];
    SetUint16(view, 20, 1);
    PrefixStep(s, 20, U16Bytes(1), p, 24);
    p := p + U16Bytes(1);

    s := view[..];
    SetUint16(view, 22, NumChannels);
    PrefixStep(s, 22, U16Bytes(NumChannels), p, 24);
    assert p + U16Bytes(NumChannels) == pre + FmtCodec();
  }

  /** Bytes 24-35: the rates, the block alignment and the sample width. */
  method WriteFmtRates(view: array<Byte>, sampleRate: nat, ghost pre: seq<Byte>)
    requires view.Length >= HeaderSize && view[..24] == pre
    modifies view
    ensures view[..36] == pre + FmtRates(sampleRate)
    ensures view[36..] == old(view[36..])
  {
    ghost var p := pre;
    ghost var s := view[..];
    SetUint32(view, 24, sampleRate);
    PrefixStep(s, 24, U32Bytes(sampleRate), p, 36);
    p := p + U32Bytes(sampleRate);

    s := view[..];
    SetUint32(view, 28, sampleRate * BlockAlign);
    PrefixStep(s, 28, U32Bytes(sampleRate * BlockAlign), p, 36);
    p := p + U32Bytes(sampleRate * BlockAlign);

    s := view[..];
    SetUint16(view, 32, BlockAlign);
    PrefixStep(s, 32, U16Bytes(BlockAlign), p, 36);
    p := p + U16Bytes(BlockAlign);

    s := view[..];
    SetUint16(view, 34, BitsPerSample);
    PrefixStep(s, 34, U16Bytes(BitsPerSample), p, 36);
    assert p + U16Bytes(BitsPerSample) == pre + FmtRates(sampleRate);
  }

  /** Bytes 36-43: `writeStr(36, "data")` and the data size at 40. */
  method WriteData(view: array<Byte>, n: nat, ghost pre: seq<Byte>)
    requires view.Length >= HeaderSize && view[..36] == pre
    modifies view
    ensures view[..HeaderSize] == pre + DataPart(n)
    ensures view[HeaderSize..] == old(view[HeaderSize..])
  {
    var dataSize := n * BytesPerSample;
    ghost var p := pre;
    ghost var s := view[..];
    WriteStr(view, 36, "data");
    PrefixStep(s, 36, Ascii("data"), p, HeaderSize);
    p := p + Ascii("data");

    s := view[..];
    SetUint32(view, 40, dataSize);
    PrefixStep(s, 40, U32Bytes(dataSize), p, HeaderSize);
    assert p + U32Bytes(dataSize) == pre + DataPart(n);
  }

  /** The header writes, in the order and at the offsets of the source. */
  method WriteHeader(view: array<Byte>, n: nat, sampleRate: nat)
    requires view.Length >= HeaderSize
    modifies view
    ensures view[..HeaderSize] == Header(n, sampleRate)
    ensures view[HeaderSize..] == old(view[HeaderSize..])
  {
    WriteRiff(view, n);
    ghost var s1 := view[..];
    WriteFmtCodec(view, RiffPart(n));
    ghost var s2 := view[..];
    assert s2[HeaderSize..] == s1[HeaderSize..] by {
      assert s2[24..][20..] == s2[HeaderSize..];
      assert s1[24..][20..] == s1[HeaderSize..];
    }
    WriteFmtRates(view, sampleRate, RiffPart(n) + FmtCodec());
    ghost var s3 := view[..];
    assert s3[HeaderSize..] == s2[HeaderSize..] by {
      assert s3[36..][8..] == s3[HeaderSize..];
      assert s2[36..][8..] == s2[HeaderSize..];
    }
    assert RiffPart(n) + FmtCodec() + FmtRates(sampleRate) == RiffPart(n) + FmtPart(sampleRate);
    WriteData(view, n, RiffPart(n) + FmtPart(sampleRate));
  }

  /** One iteration of the sample loop: `setInt16(44 + i * 2, …)` right after the bytes written so far. */
  method WriteSample(buffer: array<Byte>, samples: seq<real>, i: nat, ghost pre: seq<Byte>)
    requires i < |samples| && buffer.Length == HeaderSize + 2 * |samples|
    requires buffer[..HeaderSize + 2 * i] == pre
    modifies buffer
    ensures buffer[..HeaderSize + 2 * i + 2] == pre + U16Bytes(Pcm(samples[i]))
  {
    ghost var s := buffer[..];
    var c := Clamp(samples[i]);
    SetInt16(buffer, HeaderSize + i * 2, Trunc(if c < 0.0 then c * 32768.0 else c * 32767.0));
    PrefixStep(s, HeaderSize + i * 2, U16Bytes(Pcm(samples[i])), pre, buffer.Length);
  }

  /** `encodeWav(samples, sampleRate)`: a zeroed buffer of 44 + 2n bytes, the header, then every sample. */
  method EncodeWav(samples: seq<real>, sampleRate: nat) returns (buffer: array<Byte>)
    ensures fresh(buffer)
    ensures buffer[..] == WavFile(samples, sampleRate)
  {
    var dataSize := |samples| * BytesPerSample;
    buffer := new Byte[HeaderSize + dataSize](_ => 0);
    WriteHeader(buffer, |samples|, sampleRate);
    WriteSamples(buffer, samples, Header(|samples|, sampleRate));
  }

  /** The sample loop: every sample after the header, at 44 + 2i. */
  method WriteSamples(buffer: array<Byte>, samples: seq<real>, ghost h: seq<Byte>)
    requires buffer.Length == HeaderSize + 2 * |samples| && buffer[..HeaderSize] == h
    modifies buffer
    ensures buffer[..] == h + SampleBytes(samples, |samples|)
  {
    var i := 0;
    while i < |samples|
      invariant 0 <= i <= |samples| && buffer.Length == HeaderSize + 2 * |samples|
      invariant buffer[..HeaderSize + 2 * i] == h + SampleBytes(samples, i)
    {
      WriteSample(buffer, samples, i, h + SampleBytes(samples, i));
      assert h + SampleBytes(samples, i + 1) == h + SampleBytes(samples, i) + U16Bytes(Pcm(samples[i]));
      i := i + 1;
    }
    assert buffer[..] == buffer[..HeaderSize + 2 * i];
  }

  // ---------------------------------------------------------------------------
  // What a reader of the file finds
  // ---------------------------------------------------------------------------

  /** The four chunk tags sit at offsets 0, 8, 12 and 36. */
  lemma HeaderTags(n: nat, sampleRate: nat)
    ensures Header(n, sampleRate)[0..4] == Ascii("RIFF")
    ensures Header(n, sampleRate)[8..12] == Ascii("WAVE")
    ensures Header(n, sampleRate)[12..16] == Ascii("fmt ")
    ensures Header(n, sampleRate)[36..40] == Ascii("data")
  {
  }

  /** The RIFF size is 36 + 2n and the data size 2n, each modulo 2^32. */
  lemma HeaderSizes(n: nat, sampleRate: nat)
    ensures ReadU32(Header(n, sampleRate), 4) == (36 + 2 * n) % TwoTo32
    ensures ReadU32(Header(n, sampleRate), 40) == (2 * n) % TwoTo32
  {
    var h := Header(n, sampleRate);
    assert h[4..8] == U32Bytes(36 + 2 * n);
    assert h[40..44] == U32Bytes(2 * n);
    U32RoundTrip(36 + 2 * n);
    U32RoundTrip(2 * n);
  }

  /** The `fmt ` sub-chunk sits at bytes 12-35 of the header. */
  lemma HeaderFmtSlices(n: nat, sampleRate: nat)
    ensures Header(n, sampleRate)[12..24] == FmtCodec()
    ensures Header(n, sampleRate)[24..36] == FmtRates(sampleRate)
  {
    var h := Header(n, sampleRate);
    assert h == RiffPart(n) + FmtCodec() + FmtRates(sampleRate) + DataPart(n);
  }

  /** The PCM codec fields: chunk size 16, format 1 (PCM), one channel. */
  lemma HeaderCodecFields(n: nat, sampleRate: nat)
    ensures ReadU32(Header(n, sampleRate), 16) == 16
    ensures ReadU16(Header(n, sampleRate), 20) == 1
    ensures ReadU16(Header(n, sampleRate), 22) == 1
  {
    var h := Header(n, sampleRate);
    HeaderFmtSlices(n, sampleRate);
    var c := FmtCodec();
    assert c[4..8] == U32Bytes(16) && c[8..10] == U16Bytes(1) && c[10..12] == U16Bytes(1);
    assert h[16..20] == c[4..8] && h[20..22] == c[8..10] && h[22..24] == c[10..12];
  }

  /** The rate fields: the given sample rate, byte rate 2·rate (both modulo 2^32), block align 2, 16 bits. */
  lemma HeaderRateFields(n: nat, sampleRate: nat)
    ensures ReadU32(Header(n, sampleRate), 24) == sampleRate % TwoTo32
    ensures ReadU32(Header(n, sampleRate), 28) == (2 * sampleRate) % TwoTo32
    ensures ReadU16(Header(n, sampleRate), 32) == 2
    ensures ReadU16(Header(n, sampleRate), 34) == 16
  {
    var h := Header(n, sampleRate);
    HeaderFmtSlices(n, sampleRate);
    var r := FmtRates(sampleRate);
    assert r[0..4] == U32Bytes(sampleRate) && r[4..8] == U32Bytes(sampleRate * 2);
    assert r[8..10] == U16Bytes(2) && r[10..12] == U16Bytes(16);
    assert h[24..28] == r[0..4] && h[28..32] == r[4..8] && h[32..34] == r[8..10] && h[34..36] == r[10..12];
    U32RoundTrip(sampleRate);
    U32RoundTrip(sampleRate * 2);
  }

  lemma {:induction false} SampleBytesAt(samples: seq<real>, k: nat, i: nat)
    requires i < k <= |samples|
    ensures SampleBytes(samples, k)[2 * i..2 * i + 2] == U16Bytes(Pcm(samples[i]))
  {
    if i < k - 1 {
      SampleBytesAt(samples, k - 1, i);
      assert SampleBytes(samples, k)[..2 * (k - 1)] == SampleBytes(samples, k - 1);
    }
  }

  /** Sample i reads back, as a signed 16-bit word at offset 44 + 2i, as its clamped and scaled value. */
  lemma SampleReadsBack(samples: seq<real>, sampleRate: nat, i: nat)
    requires i < |samples|
    ensures ReadI16(WavFile(samples, sampleRate), HeaderSize + 2 * i) == Pcm(samples[i])
  {
    var f := WavFile(samples, sampleRate);
    SampleBytesAt(samples, |samples|, i);
    assert f[HeaderSize + 2 * i..HeaderSize + 2 * i + 2] == U16Bytes(Pcm(samples[i]));
    PcmSpec(samples[i]);
    I16RoundTrip(Pcm(samples[i]));
  }
}
