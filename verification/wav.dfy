/** The canonical 44-byte RIFF/WAVE container for 16-bit mono linear PCM
    (the `fmt ` chunk for WAVE_FORMAT_PCM of the Microsoft/IBM Multimedia
    Programming Interface and Data Specifications 1.0, chapter 3), as built
    by `createWavBlob`. */
module Wav {
  import opened Wrappers
  import opened Bytes

  const Two16: int := 0x1_0000
  const Two32: int := 0x1_0000_0000

  const HeaderSize: nat := 44
  const NumChannels: int := 1
  const BitsPerSample: int := 16
  const FmtChunkSize: int := 16
  const FormatPcm: int := 1
  const WavMime: string := "audio/wav"

  /** `DataView.setUint16(_, v, true)`: `v` is reduced modulo 2^16 (ToUint16) and
      written low byte first. */
  function Le16(v: int): seq<Byte> {
    var u := v % Two16;
    [u % 0x100, u / 0x100]
  }

  /** `DataView.setUint32(_, v, true)`: `v` is reduced modulo 2^32 (ToUint32) and
      written low byte first. */
  function Le32(v: int): seq<Byte> {
    var u := v % Two32;
    [u % 0x100, (u / 0x100) % 0x100, (u / 0x1_0000) % 0x100, u / 0x100_0000]
  }

  /** `DataView.getUint16(off, true)`. */
  function ReadLe16(b: seq<Byte>, off: nat): int
    requires off + 2 <= |b|
  {
    b[off] as int + 0x100 * (b[off + 1] as int)
  }

  /** `DataView.getUint32(off, true)`. */
  function ReadLe32(b: seq<Byte>, off: nat): int
    requires off + 4 <= |b|
  {
    b[off] as int + 0x100 * (b[off + 1] as int) + 0x1_0000 * (b[off + 2] as int)
    + 0x100_0000 * (b[off + 3] as int)
  }

  /** Reading back a 16-bit field yields the written value modulo 2^16. */
  lemma Le16RoundTrip(v: int)
    ensures ReadLe16(Le16(v), 0) == v % Two16
  {
  }

  /** Reading back a 32-bit field yields the written value modulo 2^32. */
  lemma Le32RoundTrip(v: int)
    ensures ReadLe32(Le32(v), 0) == v % Two32
  {
    var u := v % Two32;
    var q1 := u / 0x100;
    var q2 := q1 / 0x100;
    var q3 := q2 / 0x100;
    assert u == u % 0x100 + 0x100 * q1;
    assert q1 == q1 % 0x100 + 0x100 * q2;
    assert q2 == q2 % 0x100 + 0x100 * q3;
    assert q2 == u / 0x1_0000;
    assert q3 == u / 0x100_0000;
    assert q3 < 0x100;
  }

  /** Writing back a 16-bit field that was read gives the same two bytes. */
  lemma Le16OfRead(b: seq<Byte>, off: nat)
    requires off + 2 <= |b|
    ensures Le16(ReadLe16(b, off)) == b[off..off + 2]
  {
  }

  /** Writing back a 32-bit field that was read gives the same four bytes. */
  lemma Le32OfRead(b: seq<Byte>, off: nat)
    requires off + 4 <= |b|
    ensures Le32(ReadLe32(b, off)) == b[off..off + 4]
  {
    var u := ReadLe32(b, off);
    assert u < Two32;
    assert u % Two32 == u;
    assert u / 0x100 == b[off + 1] as int + 0x100 * (b[off + 2] as int) + 0x1_0000 * (b[off + 3] as int);
    assert u / 0x1_0000 == b[off + 2] as int + 0x100 * (b[off + 3] as int);
    assert u / 0x100_0000 == b[off + 3];
  }

  /** `writeString`: one byte per character, `charCodeAt` stored by `setUint8`
      (so reduced modulo 256). */
  function WriteString(s: string): (r: seq<Byte>)
    ensures |r| == |s|
  {
    seq(|s|, i requires 0 <= i < |s| => (s[i] as int) % 0x100)
  }

  /** The four-character tag starting at `off`, read back as characters. */
  function ReadTag(b: seq<Byte>, off: nat): string
    requires off + 4 <= |b|
  {
    seq(4, i requires 0 <= i < 4 => b[off + i] as char)
  }

  /** The RIFF chunk descriptor: tag, chunk size `36 + dataSize`, form type. */
  function RiffDescriptor(dataSize: int): (r: seq<Byte>)
    ensures |r| == 12
  {
    WriteString("RIFF") + Le32(36 + dataSize) + WriteString("WAVE")
  }

  /** The `fmt ` sub-chunk for one channel of 16-bit PCM at `sampleRate`. */
  function FmtChunk(sampleRate: int): (r: seq<Byte>)
    ensures |r| == 24
  {
    var byteRate := sampleRate * NumChannels * (BitsPerSample / 8);
    var blockAlign := NumChannels * (BitsPerSample / 8);
    WriteString("fmt ") + Le32(FmtChunkSize) + Le16(FormatPcm) + Le16(NumChannels)
    + Le32(sampleRate) + Le32(byteRate) + Le16(blockAlign) + Le16(BitsPerSample)
  }

  /** The `data` sub-chunk header announcing `dataSize` payload bytes. */
  function DataChunkHeader(dataSize: int): (r: seq<Byte>)
    ensures |r| == 8
  {
    WriteString("data") + Le32(dataSize)
  }

  /** `createWavBlob`'s buffer: the 44-byte header followed by the PCM bytes verbatim. */
  function WavBytes(pcm: seq<Byte>, sampleRate: int): (r: seq<Byte>)
    ensures |r| == HeaderSize + |pcm|
    ensures r[HeaderSize..] == pcm
  {
    RiffDescriptor(|pcm|) + FmtChunk(sampleRate) + DataChunkHeader(|pcm|) + pcm
  }

  /** Only the four bytes at `off` matter to a 32-bit read. */
  lemma ReadLe32Within(r: seq<Byte>, lo: nat, hi: nat, off: nat)
    requires lo <= off && off + 4 <= hi <= |r|
    ensures ReadLe32(r, off) == ReadLe32(r[lo..hi], off - lo)
  {
  }

  lemma ReadLe16Within(r: seq<Byte>, lo: nat, hi: nat, off: nat)
    requires lo <= off && off + 2 <= hi <= |r|
    ensures ReadLe16(r, off) == ReadLe16(r[lo..hi], off - lo)
  {
  }

  lemma ReadTagWithin(r: seq<Byte>, lo: nat, hi: nat, off: nat)
    requires lo <= off && off + 4 <= hi <= |r|
    ensures ReadTag(r, off) == ReadTag(r[lo..hi], off - lo)
  {
    forall i | 0 <= i < 4 ensures ReadTag(r, off)[i] == ReadTag(r[lo..hi], off - lo)[i] {
      assert r[off + i] == r[lo..hi][off - lo + i];
    }
  }

  /** A 32-bit field written at `off` reads back modulo 2^32. */
  lemma Field32(r: seq<Byte>, off: nat, v: int)
    requires off + 4 <= |r| && r[off..off + 4] == Le32(v)
    ensures ReadLe32(r, off) == v % Two32
  {
    Le32RoundTrip(v);
    ReadLe32Within(r, off, off + 4, off);
  }

  /** A 16-bit field written at `off` reads back modulo 2^16. */
  lemma Field16(r: seq<Byte>, off: nat, v: int)
    requires off + 2 <= |r| && r[off..off + 2] == Le16(v)
    ensures ReadLe16(r, off) == v % Two16
  {
    Le16RoundTrip(v);
    ReadLe16Within(r, off, off + 2, off);
  }

  /** An ASCII tag written at `off` reads back as itself. */
  lemma Tag(r: seq<Byte>, off: nat, t: string)
    requires |t| == 4 && forall i | 0 <= i < 4 :: t[i] < 128 as char
    requires off + 4 <= |r| && r[off..off + 4] == WriteString(t)
    ensures ReadTag(r, off) == t
  {
    forall i | 0 <= i < 4 ensures ReadTag(r, off)[i] == t[i] {
      assert r[off + i] == WriteString(t)[i];
    }
  }

  /** The RIFF descriptor of `createWavBlob`'s output: "RIFF" at 0, the chunk
      size `36 + dataSize` (modulo 2^32) at 4, "WAVE" at 8. */
  lemma RiffFields(pcm: seq<Byte>, sampleRate: int)
    ensures ReadTag(WavBytes(pcm, sampleRate), 0) == "RIFF"
    ensures ReadLe32(WavBytes(pcm, sampleRate), 4) == (36 + |pcm|) % Two32
    ensures ReadTag(WavBytes(pcm, sampleRate), 8) == "WAVE"
  {
    var r := WavBytes(pcm, sampleRate);
    var d := RiffDescriptor(|pcm|);
    assert r[..12] == d;
    assert d[0..4] == WriteString("RIFF");
    assert d[4..8] == Le32(36 + |pcm|);
    assert d[8..12] == WriteString("WAVE");
    Tag(d, 0, "RIFF");
    Field32(d, 4, 36 + |pcm|);
    Tag(d, 8, "WAVE");
    ReadTagWithin(r, 0, 12, 0);
    ReadLe32Within(r, 0, 12, 4);
    ReadTagWithin(r, 0, 12, 8);
  }

  /** The `fmt ` sub-chunk's first half: tag, chunk size, format and channels. */
  lemma FmtChunkHead(sampleRate: int)
    ensures ReadTag(FmtChunk(sampleRate), 0) == "fmt "
    ensures ReadLe32(FmtChunk(sampleRate), 4) == FmtChunkSize
    ensures ReadLe16(FmtChunk(sampleRate), 8) == FormatPcm
    ensures ReadLe16(FmtChunk(sampleRate), 10) == NumChannels
  {
    var f := FmtChunk(sampleRate);
    assert f[0..4] == WriteString("fmt ");
    assert f[4..8] == Le32(FmtChunkSize);
    assert f[8..10] == Le16(FormatPcm);
    assert f[10..12] == Le16(NumChannels);
    Tag(f, 0, "fmt ");
    Field32(f, 4, FmtChunkSize);
    Field16(f, 8, FormatPcm);
    Field16(f, 10, NumChannels);
  }

  /** The `fmt ` sub-chunk's second half: sample rate, byte rate, block align and
      sample width. */
  lemma FmtChunkRates(sampleRate: int)
    ensures ReadLe32(FmtChunk(sampleRate), 12) == sampleRate % Two32
    ensures ReadLe32(FmtChunk(sampleRate), 16) == (sampleRate * 2) % Two32
    ensures ReadLe16(FmtChunk(sampleRate), 20) == 2
    ensures ReadLe16(FmtChunk(sampleRate), 22) == BitsPerSample
  {
    var f := FmtChunk(sampleRate);
    assert f[12..16] == Le32(sampleRate);
    assert f[16..20] == Le32(sampleRate * 2);
    assert f[20..22] == Le16(2);
    assert f[22..24] == Le16(BitsPerSample);
    Field32(f, 12, sampleRate);
    Field32(f, 16, sampleRate * 2);
    Field16(f, 20, 2);
    Field16(f, 22, BitsPerSample);
  }

  /** The `fmt ` sub-chunk: size 16, format 1 (PCM), one channel, the sample rate,
      byte rate `2 * sampleRate`, block align 2 and 16 bits per sample, the 32-bit
      ones modulo 2^32. */
  lemma FmtFields(pcm: seq<Byte>, sampleRate: int)
    ensures ReadTag(WavBytes(pcm, sampleRate), 12) == "fmt "
    ensures ReadLe32(WavBytes(pcm, sampleRate), 16) == FmtChunkSize
    ensures ReadLe16(WavBytes(pcm, sampleRate), 20) == FormatPcm
    ensures ReadLe16(WavBytes(pcm, sampleRate), 22) == NumChannels
    ensures ReadLe32(WavBytes(pcm, sampleRate), 24) == sampleRate % Two32
    ensures ReadLe32(WavBytes(pcm, sampleRate), 28) == (sampleRate * 2) % Two32
    ensures ReadLe16(WavBytes(pcm, sampleRate), 32) == 2
    ensures ReadLe16(WavBytes(pcm, sampleRate), 34) == BitsPerSample
  {
    var r := WavBytes(pcm, sampleRate);
    assert r[12..36] == FmtChunk(sampleRate);
    FmtChunkHead(sampleRate);
    FmtChunkRates(sampleRate);
    ReadTagWithin(r, 12, 36, 12);
    ReadLe32Within(r, 12, 36, 16);
    ReadLe16Within(r, 12, 36, 20);
    ReadLe16Within(r, 12, 36, 22);
    ReadLe32Within(r, 12, 36, 24);
    ReadLe32Within(r, 12, 36, 28);
    ReadLe16Within(r, 12, 36, 32);
    ReadLe16Within(r, 12, 36, 34);
  }

  /** The `data` sub-chunk header: "data" at 36 and the payload size (modulo 2^32)
      at 40. */
  lemma DataFields(pcm: seq<Byte>, sampleRate: int)
    ensures ReadTag(WavBytes(pcm, sampleRate), 36) == "data"
    ensures ReadLe32(WavBytes(pcm, sampleRate), 40) == |pcm| % Two32
  {
    var r := WavBytes(pcm, sampleRate);
    var d := DataChunkHeader(|pcm|);
    assert r[36..44] == d;
    assert d[0..4] == WriteString("data");
    assert d[4..8] == Le32(|pcm|);
    Tag(d, 0, "data");
    Field32(d, 4, |pcm|);
    ReadTagWithin(r, 36, 44, 36);
    ReadLe32Within(r, 36, 44, 40);
  }

  /** The size fields and the rate read back exactly when they fit in 32 bits. */
  lemma ExactSizes(pcm: seq<Byte>, sampleRate: int)
    requires 36 + |pcm| < Two32 && 0 <= sampleRate < Two32
    ensures ReadLe32(WavBytes(pcm, sampleRate), 4) == 36 + |pcm|
    ensures ReadLe32(WavBytes(pcm, sampleRate), 40) == |pcm|
    ensures ReadLe32(WavBytes(pcm, sampleRate), 24) == sampleRate
  {
    RiffFields(pcm, sampleRate);
    FmtFields(pcm, sampleRate);
    DataFields(pcm, sampleRate);
    SmallMod(36 + |pcm|);
    SmallMod(|pcm|);
    SmallMod(sampleRate);
  }

  lemma SmallMod(v: int)
    requires 0 <= v < Two32
    ensures v % Two32 == v
  {
  }

  /** What a reader recovers from a canonical mono 16-bit PCM WAVE file. */
  datatype WavInfo = WavInfo(sampleRate: int, pcm: seq<Byte>)

  /** A reader that accepts exactly the canonical 44-byte-header layout, checking
      every tag and field against the payload it announces. */
  function ParseWav(b: seq<Byte>): Option<WavInfo> {
    if |b| < HeaderSize then None
    else
      var dataSize := |b| - HeaderSize;
      var rate := ReadLe32(b, 24);
      if ReadTag(b, 0) == "RIFF" && ReadTag(b, 8) == "WAVE"
         && ReadTag(b, 12) == "fmt " && ReadTag(b, 36) == "data"
         && ReadLe32(b, 4) == 36 + dataSize && ReadLe32(b, 40) == dataSize
         && ReadLe32(b, 16) == FmtChunkSize && ReadLe16(b, 20) == FormatPcm
         && ReadLe16(b, 22) == NumChannels && ReadLe32(b, 28) == (rate * 2) % Two32
         && ReadLe16(b, 32) == 2 && ReadLe16(b, 34) == BitsPerSample
      then Some(WavInfo(rate, b[HeaderSize..]))
      else None
  }

  /** Encoding then reading recovers the sample rate and the PCM bytes, whenever
      both 32-bit size fields and the rate fit in 32 bits. */
  lemma WavRoundTrip(pcm: seq<Byte>, sampleRate: int)
    requires 36 + |pcm| < Two32 && 0 <= sampleRate < Two32
    ensures ParseWav(WavBytes(pcm, sampleRate)) == Some(WavInfo(sampleRate, pcm))
  {
    var w := WavBytes(pcm, sampleRate);
    RiffFields(pcm, sampleRate);
    FmtFields(pcm, sampleRate);
    DataFields(pcm, sampleRate);
    ExactSizes(pcm, sampleRate);
    assert |w| - HeaderSize == |pcm|;
    assert w[HeaderSize..] == pcm;
  }

  /** Conversely, every file the reader accepts is exactly what `createWavBlob`
      writes for the recovered rate and payload. */
  lemma ParsedIsCanonical(b: seq<Byte>)
    requires ParseWav(b).Some?
    ensures WavBytes(ParseWav(b).value.pcm, ParseWav(b).value.sampleRate) == b
  {
    var info := ParseWav(b).value;
    var ds := |b| - HeaderSize;
    ParsedRiff(b);
    ParsedFmt(b);
    ParsedData(b);
    assert b == b[..12] + b[12..36] + b[36..44] + b[44..];
  }

  /** Writing back a tag that was read gives the same four bytes. */
  lemma TagBytes(b: seq<Byte>, off: nat)
    requires off + 4 <= |b|
    ensures WriteString(ReadTag(b, off)) == b[off..off + 4]
  {
  }

  lemma ParsedRiff(b: seq<Byte>)
    requires ParseWav(b).Some?
    ensures b[..12] == RiffDescriptor(|b| - HeaderSize)
  {
    Le32OfRead(b, 4);
    TagBytes(b, 0);
    TagBytes(b, 8);
    assert b[..12] == b[0..4] + b[4..8] + b[8..12];
  }

  lemma ParsedFmt(b: seq<Byte>)
    requires ParseWav(b).Some?
    ensures b[12..36] == FmtChunk(ParseWav(b).value.sampleRate)
  {
    var rate := ReadLe32(b, 24);
    var f := b[12..36];
    assert f[0..4] == b[12..16];
    assert f[4..8] == b[16..20];
    assert f[8..10] == b[20..22];
    assert f[10..12] == b[22..24];
    assert f[12..16] == b[24..28];
    assert f[16..20] == b[28..32];
    assert f[20..22] == b[32..34];
    assert f[22..24] == b[34..36];
    TagBytes(b, 12);
    Le32OfRead(b, 16);
    Le16OfRead(b, 20);
    Le16OfRead(b, 22);
    Le32OfRead(b, 24);
    Le32OfRead(b, 28);
    Le16OfRead(b, 32);
    Le16OfRead(b, 34);
    Le32Mod(rate * 2);
    assert f[16..20] == Le32(rate * 2);
    FmtFromFields(f, rate);
  }

  /** Reducing a value modulo 2^32 before writing it changes nothing. */
  lemma Le32Mod(v: int)
    ensures Le32(v % Two32) == Le32(v)
  {
    SmallMod(v % Two32);
  }

  lemma FmtFromFields(f: seq<Byte>, rate: int)
    requires |f| == 24
    requires f[0..4] == WriteString("fmt ") && f[4..8] == Le32(FmtChunkSize)
    requires f[8..10] == Le16(FormatPcm) && f[10..12] == Le16(NumChannels)
    requires f[12..16] == Le32(rate) && f[16..20] == Le32(rate * 2)
    requires f[20..22] == Le16(2) && f[22..24] == Le16(BitsPerSample)
    ensures f == FmtChunk(rate)
  {
    assert f == f[0..4] + f[4..8] + f[8..10] + f[10..12] + f[12..16] + f[16..20] + f[20..22] + f[22..24];
  }

  lemma ParsedData(b: seq<Byte>)
    requires ParseWav(b).Some?
    ensures b[36..44] == DataChunkHeader(|b| - HeaderSize)
  {
    TagBytes(b, 36);
    Le32OfRead(b, 40);
    assert b[36..44] == b[36..40] + b[40..44];
  }
}
