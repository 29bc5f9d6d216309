/**
 * The speech helpers of utils/audio_utils.py, with the speech models,
 * pydub and scipy as opaque effects whose outcome is a parameter.
 *
 * What remains exact is the fallback path: the 44-byte silent WAV file
 * written field by field in little-endian order (the PCM "fmt " and "data"
 * chunks of the RIFF WAVE format, RIFF Multimedia Programming Interface and
 * Data Specification 1.0), the number and start times of the beeps of the
 * beep track, the `.wav` path used for conversion, and the fixed sentinel
 * returned when recognition fails.
 */
module Audio {
  import opened Builtins

  type Byte = b: int | 0 <= b < 256

  // ----- little-endian integers -----

  function Pow256(width: nat): (p: nat)
    ensures p >= 1
  {
    if width == 0 then 1 else 256 * Pow256(width - 1)
  }

  /** `value.to_bytes(width, byteorder='little')`; Python refuses values that
      do not fit, so the value must. */
  function LittleEndian(value: nat, width: nat): (bs: seq<Byte>)
    requires value < Pow256(width)
    ensures |bs| == width
  {
    if width == 0 then [] else [value % 256] + LittleEndian(value / 256, width - 1)
  }

  /** `int.from_bytes(bs, 'little')`. */
  function FromLittleEndian(bs: seq<Byte>): (value: nat)
    ensures value < Pow256(|bs|)
  {
    if bs == [] then 0 else bs[0] + 256 * FromLittleEndian(bs[1..])
  }

  /** Decoding an encoded integer gives the integer back. */
  lemma {:induction false} DecodeEncode(value: nat, width: nat)
    requires value < Pow256(width)
    ensures FromLittleEndian(LittleEndian(value, width)) == value
  {
    if width > 0 {
      var bs := LittleEndian(value, width);
      assert bs[1..] == LittleEndian(value / 256, width - 1);
      DecodeEncode(value / 256, width - 1);
    }
  }

  /** Encoding a decoded byte string at its own width gives the bytes back. */
  lemma {:induction false} EncodeDecode(bs: seq<Byte>)
    ensures LittleEndian(FromLittleEndian(bs), |bs|) == bs
  {
    if bs != [] {
      EncodeDecode(bs[1..]);
      var v := FromLittleEndian(bs);
      assert v % 256 == bs[0] && v / 256 == FromLittleEndian(bs[1..]);
    }
  }

  // ----- the WAV header -----

  const RiffTag: seq<Byte> := [0x52, 0x49, 0x46, 0x46]  // b'RIFF'
  const WaveTag: seq<Byte> := [0x57, 0x41, 0x56, 0x45]  // b'WAVE'
  const FmtTag: seq<Byte> := [0x66, 0x6D, 0x74, 0x20]   // b'fmt '
  const DataTag: seq<Byte> := [0x64, 0x61, 0x74, 0x61]  // b'data'

  /** The fields of a PCM "fmt " chunk after its tag and size. */
  datatype PcmFormat = PcmFormat(
    audioFormat: nat, channels: nat, sampleRate: nat,
    byteRate: nat, blockAlign: nat, bitsPerSample: nat)

  /** The variable fields of a canonical 44-byte PCM WAV header. The "fmt "
      chunk size is always 16 for PCM and is not a field. */
  datatype WavHeader = WavHeader(riffSize: nat, format: PcmFormat, dataSize: nat)

  const HeaderLength := 44
  const PcmFmtChunkSize := 16

  /** Every field fits its width: four bytes for sizes and rates, two for the rest. */
  predicate FormatFits(fmt: PcmFormat) {
    fmt.audioFormat < Pow256(2) && fmt.channels < Pow256(2) && fmt.sampleRate < Pow256(4) &&
    fmt.byteRate < Pow256(4) && fmt.blockAlign < Pow256(2) && fmt.bitsPerSample < Pow256(2)
  }

  predicate Fits(h: WavHeader) {
    h.riffSize < Pow256(4) && FormatFits(h.format) && h.dataSize < Pow256(4)
  }

  /** The RIFF chunk header: the tag, the size of what follows, the form type. */
  function RiffHeader(riffSize: nat): (bs: seq<Byte>)
    requires riffSize < Pow256(4)
    ensures |bs| == 12
  {
    RiffTag + (LittleEndian(riffSize, 4) + WaveTag)
  }

  /** The PCM "fmt " chunk. */
  function FmtChunk(fmt: PcmFormat): (bs: seq<Byte>)
    requires FormatFits(fmt)
    ensures |bs| == 24
  {
    FmtTag + (LittleEndian(PcmFmtChunkSize, 4) +
    (LittleEndian(fmt.audioFormat, 2) + (LittleEndian(fmt.channels, 2) +
    (LittleEndian(fmt.sampleRate, 4) + (LittleEndian(fmt.byteRate, 4) +
    (LittleEndian(fmt.blockAlign, 2) + LittleEndian(fmt.bitsPerSample, 2)))))))
  }

  /** The header of the "data" chunk: its tag and size. */
  function DataHeader(dataSize: nat): (bs: seq<Byte>)
    requires dataSize < Pow256(4)
    ensures |bs| == 8
  {
    DataTag + LittleEndian(dataSize, 4)
  }

  /** The whole header, chunk after chunk. */
  function EncodeHeader(h: WavHeader): (bs: seq<Byte>)
    requires Fits(h)
    ensures |bs| == HeaderLength
  {
    RiffHeader(h.riffSize) + (FmtChunk(h.format) + DataHeader(h.dataSize))
  }

  function ParseRiffHeader(bs: seq<Byte>): Option<nat>
    requires |bs| == 12
  {
    if bs[..4] == RiffTag && bs[8..] == WaveTag then Some(FromLittleEndian(bs[4..8])) else None
  }

  function ParseFmtChunk(bs: seq<Byte>): Option<PcmFormat>
    requires |bs| == 24
  {
    if bs[..4] == FmtTag && FromLittleEndian(bs[4..8]) == PcmFmtChunkSize then
      Some(PcmFormat(
        FromLittleEndian(bs[8..10]), FromLittleEndian(bs[10..12]), FromLittleEndian(bs[12..16]),
        FromLittleEndian(bs[16..20]), FromLittleEndian(bs[20..22]), FromLittleEndian(bs[22..24])))
    else None
  }

  function ParseDataHeader(bs: seq<Byte>): Option<nat>
    requires |bs| == 8
  {
    if bs[..4] == DataTag then Some(FromLittleEndian(bs[4..])) else None
  }

  /** Reads a canonical header from the front of a file: the three tags and
      the PCM "fmt " chunk size must be in place. */
  function ParseHeader(bs: seq<Byte>): (r: Option<WavHeader>)
    ensures r.Some? ==> HeaderLength <= |bs|
  {
    if |bs| < HeaderLength then None
    else
      var riff, fmt, data := ParseRiffHeader(bs[..12]), ParseFmtChunk(bs[12..36]), ParseDataHeader(bs[36..44]);
      if riff.Some? && fmt.Some? && data.Some? then Some(WavHeader(riff.value, fmt.value, data.value)) else None
  }

  lemma SplitAt(s: seq<Byte>, i: nat, j: nat)
    requires i <= j <= |s|
    ensures s[i..] == s[i..j] + s[j..]
  {
  }

  lemma ThreeParts(s: seq<Byte>, i: nat, j: nat, k: nat)
    requires i <= j <= k <= |s|
    ensures s[..k] == s[..i] + (s[i..j] + s[j..k])
  {
  }

  lemma RiffHeaderRoundTrip(riffSize: nat)
    requires riffSize < Pow256(4)
    ensures ParseRiffHeader(RiffHeader(riffSize)) == Some(riffSize)
  {
    var e := RiffHeader(riffSize);
    assert e[..4] == RiffTag && e[4..8] == LittleEndian(riffSize, 4) && e[8..] == WaveTag;
    DecodeEncode(riffSize, 4);
  }

  lemma RiffHeaderOfParse(bs: seq<Byte>)
    requires |bs| == 12 && ParseRiffHeader(bs).Some?
    ensures ParseRiffHeader(bs).value < Pow256(4)
    ensures RiffHeader(ParseRiffHeader(bs).value) == bs
  {
    EncodeDecode(bs[4..8]);
    SplitAt(bs, 4, 8);
    SplitAt(bs, 0, 4);
  }

  lemma FmtChunkRoundTrip(fmt: PcmFormat)
    requires FormatFits(fmt)
    ensures ParseFmtChunk(FmtChunk(fmt)) == Some(fmt)
  {
    var e := FmtChunk(fmt);
    assert e[..4] == FmtTag && e[4..8] == LittleEndian(PcmFmtChunkSize, 4);
    assert e[8..10] == LittleEndian(fmt.audioFormat, 2) && e[10..12] == LittleEndian(fmt.channels, 2);
    assert e[12..16] == LittleEndian(fmt.sampleRate, 4) && e[16..20] == LittleEndian(fmt.byteRate, 4);
    assert e[20..22] == LittleEndian(fmt.blockAlign, 2) && e[22..24] == LittleEndian(fmt.bitsPerSample, 2);
    DecodeEncode(PcmFmtChunkSize, 4);
    DecodeEncode(fmt.audioFormat, 2);
    DecodeEncode(fmt.channels, 2);
    DecodeEncode(fmt.sampleRate, 4);
    DecodeEncode(fmt.byteRate, 4);
    DecodeEncode(fmt.blockAlign, 2);
    DecodeEncode(fmt.bitsPerSample, 2);
  }

  lemma FmtChunkOfParse(bs: seq<Byte>)
    requires |bs| == 24 && ParseFmtChunk(bs).Some?
    ensures FormatFits(ParseFmtChunk(bs).value)
    ensures FmtChunk(ParseFmtChunk(bs).value) == bs
  {
    EncodeDecode(bs[4..8]);
    EncodeDecode(bs[8..10]);
    EncodeDecode(bs[10..12]);
    EncodeDecode(bs[12..16]);
    EncodeDecode(bs[16..20]);
    EncodeDecode(bs[20..22]);
    EncodeDecode(bs[22..24]);
    assert bs[22..] == bs[22..24];
    SplitAt(bs, 20, 22);
    SplitAt(bs, 16, 20);
    SplitAt(bs, 12, 16);
    SplitAt(bs, 10, 12);
    SplitAt(bs, 8, 10);
    SplitAt(bs, 4, 8);
    SplitAt(bs, 0, 4);
  }

  lemma DataHeaderRoundTrip(dataSize: nat)
    requires dataSize < Pow256(4)
    ensures ParseDataHeader(DataHeader(dataSize)) == Some(dataSize)
  {
    var e := DataHeader(dataSize);
    assert e[..4] == DataTag && e[4..] == LittleEndian(dataSize, 4);
    DecodeEncode(dataSize, 4);
  }

  lemma DataHeaderOfParse(bs: seq<Byte>)
    requires |bs| == 8 && ParseDataHeader(bs).Some?
    ensures ParseDataHeader(bs).value < Pow256(4)
    ensures DataHeader(ParseDataHeader(bs).value) == bs
  {
    EncodeDecode(bs[4..]);
    SplitAt(bs, 0, 4);
  }

  /** Parsing an encoded header gives the header back. */
  lemma ParseEncode(h: WavHeader)
    requires Fits(h)
    ensures ParseHeader(EncodeHeader(h)) == Some(h)
  {
    var e := EncodeHeader(h);
    assert e[..12] == RiffHeader(h.riffSize);
    assert e[12..36] == FmtChunk(h.format);
    assert e[36..44] == DataHeader(h.dataSize);
    RiffHeaderRoundTrip(h.riffSize);
    FmtChunkRoundTrip(h.format);
    DataHeaderRoundTrip(h.dataSize);
  }

  /** A header that parses is exactly the encoding of what it parses to. */
  lemma EncodeParse(bs: seq<Byte>)
    requires ParseHeader(bs).Some?
    ensures Fits(ParseHeader(bs).value)
    ensures EncodeHeader(ParseHeader(bs).value) == bs[..HeaderLength]
  {
    var riff, fmt, data := ParseRiffHeader(bs[..12]), ParseFmtChunk(bs[12..36]), ParseDataHeader(bs[36..44]);
    assert ParseHeader(bs) == Some(WavHeader(riff.value, fmt.value, data.value));
    RiffHeaderOfParse(bs[..12]);
    FmtChunkOfParse(bs[12..36]);
    DataHeaderOfParse(bs[36..44]);
    ThreeParts(bs, 12, 36, HeaderLength);
  }

  /** The header of the silent fallback file: mono 16-bit PCM at 22050 Hz
      with an empty data chunk. */
  const FallbackHeader := WavHeader(36, PcmFormat(1, 1, 22050, 22050 * 2, 2, 16), 0)

  /** A header describes a file of `fileLength` bytes consistently: the RIFF
      size counts everything after its own field, the data chunk holds what
      follows the header, and the rates agree with the sample format. */
  predicate Consistent(h: WavHeader, fileLength: nat) {
    && h.riffSize == fileLength - 8
    && fileLength == HeaderLength + h.dataSize
    && h.format.blockAlign == h.format.channels * h.format.bitsPerSample / 8
    && h.format.byteRate == h.format.sampleRate * h.format.blockAlign
  }

  /** The fallback file is the 44 header bytes and nothing else, and its
      header describes it consistently and reads back unchanged. */
  lemma FallbackHeaderWellFormed()
    ensures Fits(FallbackHeader)
    ensures |EncodeHeader(FallbackHeader)| == HeaderLength
    ensures Consistent(FallbackHeader, |EncodeHeader(FallbackHeader)|)
    ensures FallbackHeader.dataSize == 0
    ensures ParseHeader(EncodeHeader(FallbackHeader)) == Some(FallbackHeader)
  {
    ParseEncode(FallbackHeader);
  }

  /** The fallback file, chunk by chunk and byte for byte. */
  lemma FallbackHeaderBytes()
    ensures RiffHeader(FallbackHeader.riffSize) == [0x52, 0x49, 0x46, 0x46, 36, 0, 0, 0, 0x57, 0x41, 0x56, 0x45]
    ensures FmtChunk(FallbackHeader.format) ==
      [0x66, 0x6D, 0x74, 0x20, 16, 0, 0, 0, 1, 0, 1, 0, 0x22, 0x56, 0, 0, 0x44, 0xAC, 0, 0, 2, 0, 16, 0]
    ensures DataHeader(FallbackHeader.dataSize) == [0x64, 0x61, 0x74, 0x61, 0, 0, 0, 0]
  {
    FallbackRiffBytes();
    FallbackFmtBytes();
    FallbackDataBytes();
  }

  lemma FallbackRiffBytes()
    ensures RiffHeader(FallbackHeader.riffSize) == [0x52, 0x49, 0x46, 0x46, 36, 0, 0, 0, 0x57, 0x41, 0x56, 0x45]
  {
    FallbackFieldBytes();
    calc {
      RiffHeader(FallbackHeader.riffSize);
      RiffTag + (LittleEndian(36, 4) + WaveTag);
      [0x52, 0x49, 0x46, 0x46] + ([36, 0, 0, 0] + [0x57, 0x41, 0x56, 0x45]);
    }
  }

  lemma FallbackDataBytes()
    ensures DataHeader(FallbackHeader.dataSize) == [0x64, 0x61, 0x74, 0x61, 0, 0, 0, 0]
  {
    FallbackFieldBytes();
    calc {
      DataHeader(FallbackHeader.dataSize);
      DataTag + LittleEndian(0, 4);
      [0x64, 0x61, 0x74, 0x61] + [0, 0, 0, 0];
    }
  }

  /** The little-endian fields the fallback writes. */
  lemma FallbackFieldBytes()
    ensures LittleEndian(36, 4) == [36, 0, 0, 0] && LittleEndian(0, 4) == [0, 0, 0, 0]
    ensures LittleEndian(16, 4) == [16, 0, 0, 0]
    ensures LittleEndian(1, 2) == [1, 0] && LittleEndian(2, 2) == [2, 0] && LittleEndian(16, 2) == [16, 0]
  {
  }

  lemma FallbackRateBytes()
    ensures LittleEndian(22050, 4) == [0x22, 0x56, 0, 0] && LittleEndian(44100, 4) == [0x44, 0xAC, 0, 0]
  {
  }

  lemma FallbackFmtBytes()
    ensures FmtChunk(FallbackHeader.format) ==
      [0x66, 0x6D, 0x74, 0x20, 16, 0, 0, 0, 1, 0, 1, 0, 0x22, 0x56, 0, 0, 0x44, 0xAC, 0, 0, 2, 0, 16, 0]
  {
    var f := FallbackHeader.format;
    assert f == PcmFormat(1, 1, 22050, 44100, 2, 16);
    FallbackFieldBytes();
    FallbackRateBytes();
    calc {
      FmtChunk(f);
      FmtTag + (LittleEndian(16, 4) + (LittleEndian(1, 2) + (LittleEndian(1, 2) +
        (LittleEndian(22050, 4) + (LittleEndian(44100, 4) + (LittleEndian(2, 2) + LittleEndian(16, 2)))))));
      [0x66, 0x6D, 0x74, 0x20] + ([16, 0, 0, 0] + ([1, 0] + ([1, 0] +
        ([0x22, 0x56, 0, 0] + ([0x44, 0xAC, 0, 0] + ([2, 0] + [16, 0]))))));
      { FmtPieces(); }
      [0x66, 0x6D, 0x74, 0x20, 16, 0, 0, 0, 1, 0, 1, 0, 0x22, 0x56, 0, 0, 0x44, 0xAC, 0, 0, 2, 0, 16, 0];
    }
  }

  lemma FmtPieces()
    ensures [0x66, 0x6D, 0x74, 0x20] + ([16, 0, 0, 0] + ([1, 0] + ([1, 0] +
        ([0x22, 0x56, 0, 0] + ([0x44, 0xAC, 0, 0] + ([2, 0] + [16, 0])))))) ==
      [0x66, 0x6D, 0x74, 0x20, 16, 0, 0, 0, 1, 0, 1, 0, 0x22, 0x56, 0, 0, 0x44, 0xAC, 0, 0, 2, 0, 16, 0]
  {
  }

  /** A file opened for binary writing: what has been written to it so far. */
  class BinaryFile {
    var contents: seq<Byte>

    /** `open(path, 'wb')` truncates the file. */
    constructor ()
      ensures contents == []
    {
      contents := [];
    }

    /** `f.write(bs)` appends. */
    method Write(bs: seq<Byte>)
      modifies this
      ensures contents == old(contents) + bs
    {
      contents := contents + bs;
    }
  }

  /** The `except` branch of `generate_fallback_audio`: opens the output
      file for writing and writes the minimal header into it. */
  method WriteSilentWav() returns (f: BinaryFile)
    ensures fresh(f)
    ensures f.contents == EncodeHeader(FallbackHeader)
  {
    f := new BinaryFile();
    WriteHeader(f, FallbackHeader);
  }

  /** Writes a header field by field: the RIFF chunk header, the format
      chunk, the data chunk header. */
  method WriteHeader(f: BinaryFile, h: WavHeader)
    requires Fits(h)
    modifies f
    ensures f.contents == old(f.contents) + EncodeHeader(h)
  {
    ghost var start := f.contents;
    WriteRiffHeader(f, h.riffSize);
    WriteFmtChunk(f, h.format);
    WriteDataHeader(f, h.dataSize);
    AppendAssoc(start + RiffHeader(h.riffSize), FmtChunk(h.format), DataHeader(h.dataSize));
    AppendAssoc(start, RiffHeader(h.riffSize), FmtChunk(h.format) + DataHeader(h.dataSize));
  }

  method WriteRiffHeader(f: BinaryFile, riffSize: nat)
    requires riffSize < Pow256(4)
    modifies f
    ensures f.contents == old(f.contents) + RiffHeader(riffSize)
  {
    ghost var c0 := f.contents;
    f.Write(RiffTag);
    f.Write(LittleEndian(riffSize, 4));
    f.Write(WaveTag);
    AppendAssoc(c0 + RiffTag, LittleEndian(riffSize, 4), WaveTag);
    AppendAssoc(c0, RiffTag, LittleEndian(riffSize, 4) + WaveTag);
  }

  method WriteFmtChunk(f: BinaryFile, fmt: PcmFormat)
    requires FormatFits(fmt)
    modifies f
    ensures f.contents == old(f.contents) + FmtChunk(fmt)
  {
    var tag, size := FmtTag, LittleEndian(PcmFmtChunkSize, 4);
    var format, channels := LittleEndian(fmt.audioFormat, 2), LittleEndian(fmt.channels, 2);
    var rate, byteRate := LittleEndian(fmt.sampleRate, 4), LittleEndian(fmt.byteRate, 4);
    var align, bits := LittleEndian(fmt.blockAlign, 2), LittleEndian(fmt.bitsPerSample, 2);
    ghost var p0 := f.contents;
    f.Write(tag);
    ghost var p1 := f.contents;
    f.Write(size);
    ghost var p2 := f.contents;
    f.Write(format);
    ghost var p3 := f.contents;
    f.Write(channels);
    ghost var p4 := f.contents;
    f.Write(rate);
    ghost var p5 := f.contents;
    f.Write(byteRate);
    ghost var p6 := f.contents;
    f.Write(align);
    ghost var p7 := f.contents;
    f.Write(bits);
    // Regroup the appends from the innermost field outwards.
    AppendAssoc(p6, align, bits);
    AppendAssoc(p5, byteRate, align + bits);
    AppendAssoc(p4, rate, byteRate + (align + bits));
    AppendAssoc(p3, channels, rate + (byteRate + (align + bits)));
    AppendAssoc(p2, format, channels + (rate + (byteRate + (align + bits))));
    AppendAssoc(p1, size, format + (channels + (rate + (byteRate + (align + bits)))));
    AppendAssoc(p0, tag, size + (format + (channels + (rate + (byteRate + (align + bits))))));
  }

  method WriteDataHeader(f: BinaryFile, dataSize: nat)
    requires dataSize < Pow256(4)
    modifies f
    ensures f.contents == old(f.contents) + DataHeader(dataSize)
  {
    ghost var c0 := f.contents;
    f.Write(DataTag);
    f.Write(LittleEndian(dataSize, 4));
    AppendAssoc(c0, DataTag, LittleEndian(dataSize, 4));
  }

  lemma AppendAssoc(a: seq<Byte>, b: seq<Byte>, c: seq<Byte>)
    ensures (a + b) + c == a + (b + c)
  {
  }

  // ----- the beep track -----

  const SampleRate := 22050
  const MaxBeepsPerSecond := 4
  const DefaultDuration := 5

  /** `min(len(words) / duration, 4)`. */
  function BeepsPerSecond(wordCount: nat, duration: nat): (bps: real)
    requires duration > 0
    ensures 0.0 <= bps <= MaxBeepsPerSecond as real
    ensures bps == 0.0 <==> wordCount == 0
  {
    var r := wordCount as real / duration as real;
    if r < MaxBeepsPerSecond as real then r else MaxBeepsPerSecond as real
  }

  /** `min(len(words), int(beeps_per_second * duration))`. */
  function BeepCount(wordCount: nat, duration: nat): (n: nat)
    requires duration > 0
  {
    var t := Trunc(BeepsPerSecond(wordCount, duration) * duration as real);
    if t < 0 then 0 else if wordCount <= t then wordCount else t
  }

  /** One beep per word, but never more than four a second: the count is
      `min(len(words), 4 * duration)`, so no text gives no beeps. */
  lemma BeepCountBound(wordCount: nat, duration: nat)
    requires duration > 0
    ensures BeepCount(wordCount, duration) == if wordCount <= MaxBeepsPerSecond * duration then wordCount else MaxBeepsPerSecond * duration
    ensures BeepCount(wordCount, duration) <= wordCount
    ensures BeepCount(wordCount, duration) <= MaxBeepsPerSecond * duration
  {
    var d, n := duration as real, wordCount as real;
    var r := n / d;
    RealDivMul(n, d);
    if r < MaxBeepsPerSecond as real {
      RealMulLess(r, MaxBeepsPerSecond as real, d);
      assert BeepsPerSecond(wordCount, duration) * d == n;
    } else if wordCount < MaxBeepsPerSecond * duration {
      DivBelow(n, d, MaxBeepsPerSecond as real);
      assert false;
    }
  }

  /** The start time of every beep, `i / beeps_per_second`, lies inside the
      clip. */
  lemma BeepStartsInClip(wordCount: nat, duration: nat, i: nat)
    requires duration > 0 && i < BeepCount(wordCount, duration)
    ensures var bps := BeepsPerSecond(wordCount, duration);
      0.0 < bps && 0.0 <= i as real / bps < duration as real
  {
    var bps := BeepsPerSecond(wordCount, duration);
    var d, n := duration as real, wordCount as real;
    BeepCountBound(wordCount, duration);
    assert i as real < bps * d by {
      if n / d < MaxBeepsPerSecond as real {
        RealDivMul(n, d);
      }
    }
    DivBelow(i as real, bps, d);
  }

  lemma RealDivMul(a: real, b: real)
    requires b != 0.0
    ensures (a / b) * b == a
  {
  }

  lemma RealMulLess(a: real, b: real, c: real)
    requires a < b && 0.0 < c
    ensures a * c < b * c
  {
  }

  lemma DivBelow(a: real, b: real, c: real)
    requires 0.0 < b && a < b * c
    ensures a / b < c
  {
    var q := a / b;
    RealDivMul(a, b);
    if c <= q {
      assert c * b <= q * b;
    }
  }

  lemma DivIncreasing(a: real, b: real, c: real)
    requires a < b && 0.0 < c
    ensures a / c < b / c
  {
    RealDivMul(b, c);
    DivBelow(a, c, b / c);
  }

  /** The start times `i / beeps_per_second` of the first `n` beeps. */
  function BeepTimes(n: nat, bps: real): (times: seq<real>)
    requires 0.0 < bps
    ensures |times| == n
  {
    if n == 0 then [] else BeepTimes(n - 1, bps) + [(n - 1) as real / bps]
  }

  lemma {:induction false} BeepTimesAt(n: nat, bps: real, i: nat)
    requires 0.0 < bps && i < n
    ensures BeepTimes(n, bps)[i] == i as real / bps
  {
    if i < n - 1 {
      BeepTimesAt(n - 1, bps, i);
    }
  }

  /** Every beep starts inside the clip, and the beeps start one after the
      other. */
  lemma BeepTimesInOrder(wordCount: nat, duration: nat)
    requires duration > 0 && 0 < wordCount
    ensures var bps := BeepsPerSecond(wordCount, duration);
      var times := BeepTimes(BeepCount(wordCount, duration), bps);
      (forall i :: 0 <= i < |times| ==> 0.0 <= times[i] < duration as real) &&
      (forall i, j :: 0 <= i < j < |times| ==> times[i] < times[j])
  {
    var bps := BeepsPerSecond(wordCount, duration);
    var times := BeepTimes(BeepCount(wordCount, duration), bps);
    forall i | 0 <= i < |times|
      ensures 0.0 <= times[i] < duration as real
    {
      BeepTimesAt(|times|, bps, i);
      BeepStartsInClip(wordCount, duration, i);
    }
    forall i, j | 0 <= i < j < |times|
      ensures times[i] < times[j]
    {
      BeepTimesAt(|times|, bps, i);
      BeepTimesAt(|times|, bps, j);
      DivIncreasing(i as real, j as real, bps);
    }
  }

  /** The `for i in range(...)` loop of the beep track: the start time of
      each beep, in seconds. The waveform written around each start is not
      part of this model. */
  method BeepStarts(text: string, duration: nat) returns (starts: seq<real>)
    requires duration > 0
    ensures var n := |SplitWords(text)|;
      |starts| == BeepCount(n, duration) &&
      (n > 0 ==> starts == BeepTimes(|starts|, BeepsPerSecond(n, duration)))
  {
    var words := SplitWords(text);
    starts := [];
    if |words| == 0 {
      BeepCountBound(|words|, duration);
      return;
    }
    var count := BeepCount(|words|, duration);
    var bps := BeepsPerSecond(|words|, duration);
    var i := 0;
    while i < count
      invariant 0 <= i <= count && starts == BeepTimes(i, bps)
    {
      var pos := i as real / bps;
      starts := starts + [pos];
      i := i + 1;
    }
  }

  /** What `generate_fallback_audio` leaves at the output path. */
  datatype AudioFile =
    | BeepTrack(sampleRate: nat, sampleCount: nat, beepStarts: seq<real>)
    | WavBytes(bytes: seq<Byte>)  // bytes written as they are

  /** `generate_fallback_audio(text, output_path, duration)`. `signalOk` says
      whether numpy/scipy produce and write the signal; a duration that is
      not positive makes them fail too (a division by zero or a negative
      sample count). Either way the output path is returned. */
  method GenerateFallbackAudio(text: string, outputPath: string, duration: int, signalOk: bool)
    returns (path: string, file: AudioFile)
    ensures path == outputPath
    ensures signalOk && duration > 0 ==>
      file.BeepTrack? && file.sampleRate == SampleRate && file.sampleCount == SampleRate * duration &&
      |file.beepStarts| == BeepCount(|SplitWords(text)|, duration) &&
      (|SplitWords(text)| > 0 ==>
        file.beepStarts == BeepTimes(|file.beepStarts|, BeepsPerSecond(|SplitWords(text)|, duration)))
    ensures !(signalOk && duration > 0) ==> file == WavBytes(EncodeHeader(FallbackHeader))
  {
    if signalOk && duration > 0 {
      var starts := BeepStarts(text, duration);
      file := BeepTrack(SampleRate, SampleRate * duration, starts);
    } else {
      var f := WriteSilentWav();
      file := WavBytes(f.contents);
    }
    path := outputPath;
  }

  /** `text_to_speech`: the synthesised bytes when the speech model answers,
      the fallback audio otherwise; the path is always `speech_<id>.wav`. */
  method TextToSpeech(text: string, folder: string, contentId: nat, synthesized: Option<seq<Byte>>, signalOk: bool)
    returns (path: string, file: AudioFile)
    ensures path == SpeechPath(folder, contentId)
    ensures synthesized.Some? ==> file == WavBytes(synthesized.value)
    ensures synthesized.None? && !signalOk ==> file == WavBytes(EncodeHeader(FallbackHeader))
    ensures synthesized.None? && signalOk ==>
      file.BeepTrack? && file.sampleRate == SampleRate && file.sampleCount == SampleRate * DefaultDuration &&
      |file.beepStarts| == BeepCount(|SplitWords(text)|, DefaultDuration) &&
      (|SplitWords(text)| > 0 ==>
        file.beepStarts == BeepTimes(|file.beepStarts|, BeepsPerSecond(|SplitWords(text)|, DefaultDuration)))
  {
    path := SpeechPath(folder, contentId);
    if synthesized.Some? {
      file := WavBytes(synthesized.value);
    } else {
      path, file := GenerateFallbackAudio(text, path, DefaultDuration, signalOk);
    }
  }

  function SpeechPath(folder: string, contentId: nat): (p: string)
    ensures EndsWith(p, ".wav")
  {
    PathJoin(folder, "speech_" + DecimalDigits(contentId) + ".wav")
  }

  // ----- transcription -----

  /** `audio_path.lower().endswith('.wav')`. */
  predicate IsWavPath(p: string) {
    EndsWith(Lower(p), ".wav")
  }

  /** The file the secondary recogniser reads: the path itself when it already
      names a `.wav` file, `os.path.splitext(path)[0] + ".wav"` otherwise. */
  function WavPath(p: string): (w: string)
    ensures IsWavPath(w)
    ensures IsWavPath(p) ==> w == p
    ensures !IsWavPath(p) ==> w == SplitExtRoot(p) + ".wav" && StartsWith(w, SplitExtRoot(p))
  {
    if IsWavPath(p) then p
    else
      var w := SplitExtRoot(p) + ".wav";
      LowerSuffix(SplitExtRoot(p), ".wav");
      w
  }

  lemma LowerSuffix(s: string, t: string)
    requires Lower(t) == t
    ensures EndsWith(Lower(s + t), t)
  {
    var l := Lower(s + t);
    assert l[|l| - |t|..] == Lower(t);
  }

  /** Rewriting a path a second time changes nothing. */
  lemma WavPathIdempotent(p: string)
    ensures WavPath(WavPath(p)) == WavPath(p)
  {
  }

  const TranscriptionUnavailable := "Transcription unavailable."

  /** An outcome that may be an exception escaping the call. */
  datatype Outcome<T> = Returned(value: T) | Raised

  /** `fallback_transcribe_audio`: a conversion that fails raises out of the
      function; a recogniser that fails gives the fixed sentinel. `converts`
      says whether pydub can read and export the file, `recognize` what the
      recogniser makes of a `.wav` file (`None` for failure). */
  function FallbackTranscribe(audioPath: string, converts: bool, recognize: string -> Option<string>): (r: Outcome<string>)
    ensures r.Raised? <==> !IsWavPath(audioPath) && !converts
    ensures r.Returned? && recognize(WavPath(audioPath)).None? ==> r.value == TranscriptionUnavailable
    ensures r.Returned? && recognize(WavPath(audioPath)).Some? ==> r.value == recognize(WavPath(audioPath)).value
  {
    if !IsWavPath(audioPath) && !converts then Raised
    else
      var heard := recognize(WavPath(audioPath));
      if heard.Some? then Returned(heard.value) else Returned(TranscriptionUnavailable)
  }

  /** `transcribe_audio`: the speech model's text when it answers, the
      fallback otherwise. */
  function TranscribeAudio(audioPath: string, whisper: Option<string>, converts: bool,
                           recognize: string -> Option<string>): (r: Outcome<string>)
    ensures whisper.Some? ==> r == Returned(whisper.value)
    ensures whisper.None? ==> r == FallbackTranscribe(audioPath, converts, recognize)
  {
    if whisper.Some? then Returned(whisper.value) else FallbackTranscribe(audioPath, converts, recognize)
  }

  /** With neither recogniser working and a `.wav` input, transcription still
      returns text: the sentinel. */
  lemma TranscriptionNeverEmptyHanded(audioPath: string)
    requires IsWavPath(audioPath)
    ensures TranscribeAudio(audioPath, None, false, _ => None) == Returned(TranscriptionUnavailable)
  {
  }
}
