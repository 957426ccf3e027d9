/** Exact-duration silence and trailing-silence trimming:
    `generateSilence` and `trimTrailingSilence` of src/lib/voice/client.ts. */
module Silence {
  import opened Bytes
  import opened Wrappers
  import opened Wav

  const DefaultAmplitudeThreshold: int := 500
  const DefaultMarginMs: nat := 50

  /** `Math.round((ms / 1000) * sampleRate)` in exact arithmetic: the whole
      number of samples nearest to `ms` milliseconds, halves rounded up. */
  function SamplesFor(ms: nat, sampleRate: nat): (n: nat)
    ensures 1000 * n <= ms * sampleRate + 500 < 1000 * n + 1000
  {
    (ms * sampleRate + 500) / 1000
  }

  /** `generateSilence(durationMs, sampleRate, numChannels, bitsPerSample)`:
      zero bytes for the rounded number of sample frames. */
  function GenerateSilence(durationMs: nat, f: Format): (r: seq<byte>)
    requires f.bitsPerSample % 8 == 0
    ensures |r| == SamplesFor(durationMs, f.sampleRate) * BlockAlign(f)
    ensures forall i :: 0 <= i < |r| ==> r[i] == 0
  {
    seq(SamplesFor(durationMs, f.sampleRate) * BlockAlign(f), _ => 0)
  }

  /** The 750 ms default pause for 24 kHz, mono, 16-bit audio is 18000 samples. */
  lemma DefaultPauseBytes()
    ensures |GenerateSilence(750, Format(24000, 1, 16))| == 36000
  {
  }

  datatype TrimOptions = TrimOptions(amplitudeThreshold: Option<int>, marginMs: Option<nat>)

  /** The absolute value of 16-bit little-endian sample `k`. */
  function Amplitude(pcm: seq<byte>, k: nat): nat
    requires k < |pcm| / 2
  {
    Abs(I16At(pcm, 2 * k))
  }

  /** The backward scan of `trimTrailingSilence` started at sample `k`: it stops
      at the first sample louder than the threshold, and at sample 0, which it
      never inspects. */
  function ScanBack(pcm: seq<byte>, threshold: int, k: int): (r: int)
    requires -1 <= k < |pcm| / 2
    decreases k + 1
    ensures -1 <= r <= k
    ensures r == -1 <==> k == -1
    ensures r > 0 ==> Amplitude(pcm, r) > threshold
    ensures forall j :: r < j <= k ==> Amplitude(pcm, j) <= threshold
  {
    if k > 0 && Amplitude(pcm, k) <= threshold then ScanBack(pcm, threshold, k - 1) else k
  }

  /** `lastAudible` after the loop. */
  function LastAudible(pcm: seq<byte>, threshold: int): int
    ensures -1 <= LastAudible(pcm, threshold) < |pcm| / 2
  {
    ScanBack(pcm, threshold, |pcm| / 2 - 1)
  }

  /** `subarray(0, end)`: a negative end counts back from the length, and the
      end is clamped to the buffer. */
  function SubarrayEnd(length: nat, end: int): (r: nat)
    ensures r <= length
    ensures 0 <= end ==> r == if end <= length then end else length
    ensures end < 0 ==> r == if length + end < 0 then 0 else length + end
  {
    if end < 0 then (if length + end < 0 then 0 else length + end)
    else if end <= length then end else length
  }

  /** `endSample`: the sample after the kept prefix, before clamping by `subarray`. */
  function EndSample(pcm: seq<byte>, threshold: int, marginSamples: nat): int {
    var e := LastAudible(pcm, threshold) + marginSamples;
    if e <= |pcm| / 2 then e else |pcm| / 2
  }

  function Threshold(opts: TrimOptions): int {
    opts.amplitudeThreshold.GetOr(DefaultAmplitudeThreshold)
  }

  function MarginSamples(sampleRate: nat, opts: TrimOptions): nat {
    SamplesFor(opts.marginMs.GetOr(DefaultMarginMs), sampleRate)
  }

  /** What `trimTrailingSilence(pcm, sampleRate, opts)` returns: a prefix of
      whole 16-bit samples, so an odd trailing byte is always dropped. */
  function Trimmed(pcm: seq<byte>, sampleRate: nat, opts: TrimOptions): (r: seq<byte>)
    ensures |r| % 2 == 0 && |r| <= 2 * (|pcm| / 2) <= |pcm|
    ensures r == pcm[..|r|]
  {
    var endSample := EndSample(pcm, Threshold(opts), MarginSamples(sampleRate, opts));
    pcm[..SubarrayEnd(|pcm|, endSample * 2)]
  }

  /** `trimTrailingSilence`, with its backward loop over `lastAudible`. */
  method TrimTrailingSilence(pcm: seq<byte>, sampleRate: nat, opts: TrimOptions) returns (r: seq<byte>)
    ensures r == Trimmed(pcm, sampleRate, opts)
  {
    var threshold := opts.amplitudeThreshold.GetOr(DefaultAmplitudeThreshold);
    var marginSamples := SamplesFor(opts.marginMs.GetOr(DefaultMarginMs), sampleRate);
    var totalSamples := |pcm| / 2;

    var lastAudible := totalSamples - 1;
    while lastAudible > 0
      invariant -1 <= lastAudible < totalSamples
      invariant ScanBack(pcm, threshold, lastAudible) == LastAudible(pcm, threshold)
      decreases lastAudible
    {
      var amp := Abs(I16At(pcm, lastAudible * 2));
      if amp > threshold {
        break;
      }
      lastAudible := lastAudible - 1;
    }

    var endSample := if lastAudible + marginSamples <= totalSamples then lastAudible + marginSamples else totalSamples;
    r := pcm[..SubarrayEnd(|pcm|, endSample * 2)];
  }

  /** Where the cut falls: every sample after `LastAudible` and before the end is
      at most the threshold, `LastAudible` itself (when above 0) is louder, and the
      kept prefix ends at `min(LastAudible + margin, totalSamples)` samples. */
  lemma TrimCut(pcm: seq<byte>, sampleRate: nat, opts: TrimOptions)
    ensures var last := LastAudible(pcm, Threshold(opts));
      && (forall j :: last < j < |pcm| / 2 ==> Amplitude(pcm, j) <= Threshold(opts))
      && (last > 0 ==> Amplitude(pcm, last) > Threshold(opts))
      && |Trimmed(pcm, sampleRate, opts)| ==
           2 * (if last + MarginSamples(sampleRate, opts) <= 0 then 0
                else if last + MarginSamples(sampleRate, opts) <= |pcm| / 2
                then last + MarginSamples(sampleRate, opts) else |pcm| / 2)
  {
  }

  /** Trimming a trimmed buffer again never makes it longer. */
  lemma TrimAgainNoLonger(pcm: seq<byte>, sampleRate: nat, opts: TrimOptions)
    ensures |Trimmed(Trimmed(pcm, sampleRate, opts), sampleRate, opts)| <= |Trimmed(pcm, sampleRate, opts)|
  {
  }

  /** The scan depends only on samples 1 .. k: sample 0 is never tested. */
  lemma {:induction false} ScanBackIgnoresSampleZero(a: seq<byte>, b: seq<byte>, threshold: int, k: int)
    requires |a| == |b| && forall i :: 2 <= i < |a| ==> a[i] == b[i]
    requires -1 <= k < |a| / 2
    ensures ScanBack(a, threshold, k) == ScanBack(b, threshold, k)
    decreases k + 1
  {
    if k > 0 {
      assert Amplitude(a, k) == Amplitude(b, k);
      ScanBackIgnoresSampleZero(a, b, threshold, k - 1);
    }
  }

  /** Two buffers that differ only in their first sample are cut at the same point. */
  lemma TrimIgnoresSampleZero(a: seq<byte>, b: seq<byte>, sampleRate: nat, opts: TrimOptions)
    requires |a| == |b| && forall i :: 2 <= i < |a| ==> a[i] == b[i]
    ensures |Trimmed(a, sampleRate, opts)| == |Trimmed(b, sampleRate, opts)|
  {
    ScanBackIgnoresSampleZero(a, b, Threshold(opts), |a| / 2 - 1);
  }

  /** With a margin of 0 the last audible sample is itself cut off: for the samples
      0, 1000, 0 only the first sample is kept. */
  lemma ZeroMarginDropsLastAudible()
    ensures Trimmed([0, 0, 0xE8, 0x03, 0, 0], 24000, TrimOptions(None, Some(0))) == [0, 0]
  {
    var pcm: seq<byte> := [0, 0, 0xE8, 0x03, 0, 0];
    assert Amplitude(pcm, 2) == 0 && Amplitude(pcm, 1) == 1000;
    assert LastAudible(pcm, 500) == 1;
  }
}
