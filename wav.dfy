/** The RIFF WAVE container as the voice client writes and reads it:
    `addWavHeader` and `parseWavPcm` of src/lib/voice/client.ts. */
module Wav {
  import opened Bytes
  import opened Wrappers

  const HeaderSize: nat := 44
  /** Offset at which `parseWavPcm` starts looking for the "data" marker. */
  const ScanStart: nat := 36

  datatype Format = Format(sampleRate: nat, numChannels: nat, bitsPerSample: nat)

  datatype Decoded = Decoded(pcm: seq<byte>, format: Format)

  /** A read past the end of the buffer: Node's `RangeError`. */
  datatype ParseError = OutOfBounds

  function ByteRate(f: Format): nat {
    (f.sampleRate * f.numChannels * f.bitsPerSample) / 8
  }

  function BlockAlign(f: Format): nat {
    (f.numChannels * f.bitsPerSample) / 8
  }

  /** The header can be written: every field fits the width `writeUInt16LE` or
      `writeUInt32LE` accepts (they throw otherwise), and samples are whole bytes
      so that the byte rate and block alignment are exact. */
  predicate Encodable(pcmLength: nat, f: Format) {
    && f.bitsPerSample % 8 == 0
    && f.numChannels < TwoTo16
    && f.sampleRate < TwoTo32
    && f.bitsPerSample < TwoTo16
    && ByteRate(f) < TwoTo32
    && BlockAlign(f) < TwoTo16
    && pcmLength + HeaderSize - 8 < TwoTo32
  }

  lemma EncodableShorter(n: nat, m: nat, f: Format)
    requires Encodable(n, f) && m <= n
    ensures Encodable(m, f)
  {
  }

  /** The 44-byte canonical PCM header: RIFF chunk, "fmt " sub-chunk with
      format code 1, and the "data" sub-chunk header. */
  function Header(dataSize: nat, f: Format): seq<byte>
    requires Encodable(dataSize, f)
  {
    Ascii("RIFF") + Le32(dataSize + HeaderSize - 8) + Ascii("WAVE")
    + Ascii("fmt ") + Le32(16) + Le16(1) + Le16(f.numChannels) + Le32(f.sampleRate)
    + Le32(ByteRate(f)) + Le16(BlockAlign(f)) + Le16(f.bitsPerSample)
    + Ascii("data") + Le32(dataSize)
  }

  lemma HeaderLayout(dataSize: nat, f: Format)
    requires Encodable(dataSize, f)
    ensures var h := Header(dataSize, f);
      && |h| == HeaderSize
      && h[0..4] == Ascii("RIFF") && h[8..12] == Ascii("WAVE")
      && h[12..16] == Ascii("fmt ") && h[36..40] == Ascii("data")
      && h[4..8] == Le32(dataSize + HeaderSize - 8)
      && h[16..20] == Le32(16) && h[20..22] == Le16(1)
      && h[22..24] == Le16(f.numChannels) && h[24..28] == Le32(f.sampleRate)
      && h[28..32] == Le32(ByteRate(f)) && h[32..34] == Le16(BlockAlign(f))
      && h[34..36] == Le16(f.bitsPerSample) && h[40..44] == Le32(dataSize)
  {
  }

  lemma U16AtSlice(s: seq<byte>, off: nat, v: nat)
    requires off + 2 <= |s| && v < TwoTo16 && s[off..off + 2] == Le16(v)
    ensures U16At(s, off) == v
  {
    assert s[off] == Le16(v)[0] && s[off + 1] == Le16(v)[1];
  }

  lemma U32AtSlice(s: seq<byte>, off: nat, v: nat)
    requires off + 4 <= |s| && v < TwoTo32 && s[off..off + 4] == Le32(v)
    ensures U32At(s, off) == v
  {
    var w := Le32(v);
    assert s[off] == w[0] && s[off + 1] == w[1] && s[off + 2] == w[2] && s[off + 3] == w[3];
  }

  /** `addWavHeader(pcm, sampleRate, numChannels, bitsPerSample)`. */
  function AddWavHeader(pcm: seq<byte>, f: Format): (r: seq<byte>)
    requires Encodable(|pcm|, f)
    ensures |r| == HeaderSize + |pcm| && r[HeaderSize..] == pcm
    ensures r[0..4] == Ascii("RIFF") && r[8..12] == Ascii("WAVE")
    ensures r[12..16] == Ascii("fmt ") && r[36..40] == Ascii("data")
    ensures U32At(r, 4) == |pcm| + 36 && U32At(r, 16) == 16 && U16At(r, 20) == 1
    ensures U16At(r, 22) == f.numChannels && U32At(r, 24) == f.sampleRate
    ensures U32At(r, 28) == ByteRate(f) && U16At(r, 32) == BlockAlign(f)
    ensures U16At(r, 34) == f.bitsPerSample && U32At(r, 40) == |pcm|
  {
    var h := Header(|pcm|, f);
    HeaderLayout(|pcm|, f);
    var r := h + pcm;
    assert r[..HeaderSize] == h;
    U32AtSlice(r, 4, |pcm| + 36);
    U32AtSlice(r, 16, 16);
    U16AtSlice(r, 20, 1);
    U16AtSlice(r, 22, f.numChannels);
    U32AtSlice(r, 24, f.sampleRate);
    U32AtSlice(r, 28, ByteRate(f));
    U16AtSlice(r, 32, BlockAlign(f));
    U16AtSlice(r, 34, f.bitsPerSample);
    U32AtSlice(r, 40, |pcm|);
    r
  }

  /** With 8-bit-multiple samples the byte rate and block alignment are exact:
      bytes per second and bytes per sample frame. */
  lemma ByteRateExact(f: Format)
    requires f.bitsPerSample % 8 == 0
    ensures ByteRate(f) == f.sampleRate * BlockAlign(f)
    ensures 8 * BlockAlign(f) == f.numChannels * f.bitsPerSample
  {
    var b := f.bitsPerSample / 8;
    assert f.bitsPerSample == 8 * b;
    assert f.numChannels * f.bitsPerSample == 8 * (f.numChannels * b);
    assert f.sampleRate * f.numChannels * f.bitsPerSample == 8 * (f.sampleRate * (f.numChannels * b));
  }

  /** The `while` loop of `parseWavPcm` started at `off`: the first even offset
      from `off` on that holds the marker "data", or the first one not below
      `|wav| - 8`, where the scan gives up without an error. */
  function ScanFrom(wav: seq<byte>, off: nat): (r: nat)
    requires off % 2 == 0
    decreases |wav| - off
    ensures off <= r && r % 2 == 0
    ensures r < |wav| - 8 ==> AsciiMatches(wav, r, "data")
    ensures r > off ==> r - 2 < |wav| - 8
    ensures forall k :: off <= k < r && k % 2 == 0 ==> k < |wav| - 8 && !AsciiMatches(wav, k, "data")
  {
    if off < |wav| - 8 then
      if AsciiMatches(wav, off, "data") then off else ScanFrom(wav, off + 2)
    else off
  }

  function DataOffset(wav: seq<byte>): nat {
    ScanFrom(wav, ScanStart)
  }

  /** What `parseWavPcm` returns for `wav`, or the error the Node reads throw:
      the format fields at offsets 22, 24 and 34, and the payload whose size
      follows the marker, cut short (as `subarray` does) at the buffer's end. */
  function Parse(wav: seq<byte>): (r: Result<Decoded, ParseError>)
    ensures r.Success? ==> |wav| >= HeaderSize && |r.value.pcm| <= |wav| - HeaderSize
  {
    if |wav| < 36 then Failure(OutOfBounds)
    else
      var numChannels := U16At(wav, 22);
      var sampleRate := U32At(wav, 24);
      var bitsPerSample := U16At(wav, 34);
      var off := DataOffset(wav);
      if off + 8 > |wav| then Failure(OutOfBounds)
      else
        var dataSize := U32At(wav, off + 4);
        var end := if off + 8 + dataSize <= |wav| then off + 8 + dataSize else |wav|;
        Success(Decoded(wav[off + 8..end], Format(sampleRate, numChannels, bitsPerSample)))
  }

  /** `parseWavPcm`, with its scan loop. */
  method ParseWavPcm(wav: seq<byte>) returns (r: Result<Decoded, ParseError>)
    ensures r == Parse(wav)
  {
    if |wav| < 36 {
      return Failure(OutOfBounds);
    }
    var numChannels := U16At(wav, 22);
    var sampleRate := U32At(wav, 24);
    var bitsPerSample := U16At(wav, 34);

    var dataOffset := ScanStart;
    while dataOffset < |wav| - 8
      invariant ScanStart <= dataOffset && dataOffset % 2 == 0
      invariant ScanFrom(wav, dataOffset) == DataOffset(wav)
      decreases |wav| - dataOffset
    {
      if AsciiMatches(wav, dataOffset, "data") {
        break;
      }
      dataOffset := dataOffset + 2;
    }

    if dataOffset + 8 > |wav| {
      return Failure(OutOfBounds);
    }
    var dataSize := U32At(wav, dataOffset + 4);
    var end := if dataOffset + 8 + dataSize <= |wav| then dataOffset + 8 + dataSize else |wav|;
    r := Success(Decoded(wav[dataOffset + 8..end], Format(sampleRate, numChannels, bitsPerSample)));
  }

  lemma AsciiDataMatches(s: seq<byte>, off: nat)
    requires off + 4 <= |s| && s[off..off + 4] == Ascii("data")
    ensures AsciiMatches(s, off, "data")
  {
    forall i | 0 <= i < 4 ensures s[off + i] % 128 == "data"[i] as int {
      assert s[off + i] == s[off..off + 4][i];
    }
  }

  /** Reading back a written container gives the payload and the format that
      were written; an empty payload included, where the scan does not run
      and the marker is taken at offset 36. */
  lemma RoundTrip(pcm: seq<byte>, f: Format)
    requires Encodable(|pcm|, f)
    ensures Parse(AddWavHeader(pcm, f)) == Success(Decoded(pcm, f))
  {
    var w := AddWavHeader(pcm, f);
    AsciiDataMatches(w, 36);
    assert ScanFrom(w, ScanStart) == 36;
    assert U32At(w, 40) == |pcm| && |w| == 44 + |pcm|;
    assert w[44..|w|] == pcm;
    assert U16At(w, 22) == f.numChannels && U32At(w, 24) == f.sampleRate && U16At(w, 34) == f.bitsPerSample;
  }

  /** The parse fails exactly when the buffer is shorter than a header, or it has
      odd length and holds no marker, so that the size read at the end of the scan
      runs one byte past the end. No "marker not found" error exists. */
  lemma ParseFailsExactly(wav: seq<byte>)
    ensures Parse(wav).Failure? <==>
      |wav| < HeaderSize || (|wav| % 2 == 1 && DataOffset(wav) >= |wav| - 8)
  {
    if |wav| >= 36 {
      var off := DataOffset(wav);
      if off >= |wav| - 8 && off > ScanStart {
        assert off - 2 < |wav| - 8;
      }
    }
  }

  /** An even-length buffer of at least 44 bytes without the marker at any even
      offset in the scanned range still parses: the size is read from its last four
      bytes and the payload is empty. */
  lemma NoMarkerGivesEmptyPcm(wav: seq<byte>)
    requires |wav| >= HeaderSize && |wav| % 2 == 0
    requires forall k :: ScanStart <= k < |wav| - 8 && k % 2 == 0 ==> !AsciiMatches(wav, k, "data")
    ensures DataOffset(wav) == |wav| - 8
    ensures Parse(wav).Success? && Parse(wav).value.pcm == []
    ensures Parse(wav).value.format == Format(U32At(wav, 24), U16At(wav, 22), U16At(wav, 34))
  {
  }
}
