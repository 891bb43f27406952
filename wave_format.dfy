/** The capture format (`WAVEFORMATEX`) and the validation and derivation
    arithmetic of `ProcessLoopbackCapture::SetCaptureFormat`. */
module WaveFormat {
  import opened CaptureTypes

  /** Format tags accepted by SetCaptureFormat (values from mmreg.h). */
  const WAVE_FORMAT_PCM: int := 1
  const WAVE_FORMAT_IEEE_FLOAT: int := 3

  const CHAR_BIT: int := 8

  /** `sizeof(float) * CHAR_BIT`: the bit depth forced for IEEE float. */
  const FLOAT_BITS: int := 32

  /** The `LoopbackCaptureConst` limits on a capture format. Their values are
      not part of this model, so they are parameters. */
  datatype Limits = Limits(
    minSampleRate: nat,
    maxSampleRate: nat,
    maxBitDepth: nat,
    minChannelCount: nat,
    maxChannelCount: nat)
  {
    /** The widest sample a valid format can have: IEEE float forces 32 bits
        whatever the bit-depth limit is. */
    function WidestSample(): nat
    {
      if maxBitDepth < FLOAT_BITS then FLOAT_BITS else maxBitDepth
    }

    /** The largest frame, in bytes, a valid format can have. */
    function LargestFrame(): nat
    {
      maxChannelCount * WidestSample() / CHAR_BIT
    }

    /** Limits under which a validated format has at least one channel and no
        WORD or DWORD conversion in SetCaptureFormat loses bits. */
    predicate Valid()
    {
      && 1 <= minChannelCount
      && maxChannelCount < 0x1_0000
      && WidestSample() < 0x1_0000
      && LargestFrame() < 0x1_0000
      && maxSampleRate * LargestFrame() < 0x1_0000_0000
    }
  }

  /** `WAVEFORMATEX`, without the trailing `cbSize` (always 0 here). */
  datatype WaveFormatEx = WaveFormatEx(
    formatTag: nat,
    channels: nat,
    samplesPerSec: nat,
    bitsPerSample: nat,
    blockAlign: nat,
    avgBytesPerSec: nat)

  /** The zero-initialised `m_CaptureFormat{}`. */
  const EmptyFormat := WaveFormatEx(0, 0, 0, 0, 0, 0)

  /** A format as SetCaptureFormat leaves it: PCM or float, whole bytes per
      sample, float at 32 bits, frame size and byte rate derived exactly. */
  predicate WellFormed(f: WaveFormatEx)
  {
    && (f.formatTag == WAVE_FORMAT_PCM || f.formatTag == WAVE_FORMAT_IEEE_FLOAT)
    && (f.formatTag == WAVE_FORMAT_IEEE_FLOAT ==> f.bitsPerSample == FLOAT_BITS)
    && f.channels > 0
    && f.bitsPerSample > 0 && f.bitsPerSample % CHAR_BIT == 0
    && f.blockAlign == f.channels * f.bitsPerSample / CHAR_BIT
    && f.blockAlign > 0
    && f.avgBytesPerSec == f.samplesPerSec * f.blockAlign
  }

  /** `(WORD)x` and `(DWORD)x`: the conversions of the source, made explicit. */
  function ToWord(x: nat): nat { x % 0x1_0000 }
  function ToDWord(x: nat): nat { x % 0x1_0000_0000 }

  predicate SampleRateAllowed(limits: Limits, sampleRate: DWord)
  {
    limits.minSampleRate <= sampleRate <= limits.maxSampleRate
  }

  /** The bit-depth check, made on the caller's value before any float override. */
  predicate BitDepthAllowed(limits: Limits, bitDepth: DWord)
  {
    bitDepth != 0 && bitDepth <= limits.maxBitDepth && bitDepth % CHAR_BIT == 0
  }

  predicate ChannelCountAllowed(limits: Limits, channelCount: DWord)
  {
    limits.minChannelCount <= channelCount <= limits.maxChannelCount
  }

  predicate FormatTagAllowed(formatTag: DWord)
  {
    formatTag == WAVE_FORMAT_PCM || formatTag == WAVE_FORMAT_IEEE_FLOAT
  }

  /** The bit depth the stream will have: the caller's for PCM, 32 for IEEE
      float. An accepted bit depth stays a positive whole number of bytes. */
  function StreamBitDepth(bitDepth: DWord, formatTag: DWord): (bits: nat)
    ensures formatTag != WAVE_FORMAT_IEEE_FLOAT ==> bits == bitDepth
    ensures bitDepth > 0 && bitDepth % CHAR_BIT == 0 ==> bits > 0 && bits % CHAR_BIT == 0
  {
    if formatTag == WAVE_FORMAT_IEEE_FLOAT then FLOAT_BITS else bitDepth
  }

  /** The validation and derivation of SetCaptureFormat, past its state check:
      Param exactly when an argument is out of range, otherwise the format to
      store. The casts of the source are applied as written. */
  function MakeCaptureFormat(limits: Limits, sampleRate: DWord, bitDepth: DWord,
                             channelCount: DWord, formatTag: DWord): (r: Result<WaveFormatEx>)
    ensures r.Err? <==> !(&& SampleRateAllowed(limits, sampleRate)
                          && BitDepthAllowed(limits, bitDepth)
                          && ChannelCountAllowed(limits, channelCount)
                          && FormatTagAllowed(formatTag))
    ensures r.Err? ==> r.error == Param
  {
    if !SampleRateAllowed(limits, sampleRate) then Err(Param)
    else if !BitDepthAllowed(limits, bitDepth) then Err(Param)
    else if !ChannelCountAllowed(limits, channelCount) then Err(Param)
    else if !FormatTagAllowed(formatTag) then Err(Param)
    else
      var channels := ToWord(channelCount);
      var bits := ToWord(StreamBitDepth(bitDepth, formatTag));
      var blockAlign := ToWord(channels * bits / CHAR_BIT);
      Ok(WaveFormatEx(ToWord(formatTag), channels, sampleRate, bits,
                      blockAlign, ToDWord(sampleRate * blockAlign)))
  }

  /** Under valid limits an accepted format is well formed and keeps the
      caller's tag, rate and channel count; its bit depth is the stream's. */
  lemma AcceptedFormat(limits: Limits, sampleRate: DWord, bitDepth: DWord,
                       channelCount: DWord, formatTag: DWord)
    requires limits.Valid()
    requires MakeCaptureFormat(limits, sampleRate, bitDepth, channelCount, formatTag).Ok?
    ensures var f := MakeCaptureFormat(limits, sampleRate, bitDepth, channelCount, formatTag).value;
            && WellFormed(f)
            && f.formatTag == formatTag
            && f.samplesPerSec == sampleRate
            && f.channels == channelCount
            && f.bitsPerSample == StreamBitDepth(bitDepth, formatTag)
            && WithinLimits(limits, f)
  {
    DerivationExact(limits, sampleRate, StreamBitDepth(bitDepth, formatTag), channelCount);
  }

  /** A format whose rate and frame size the limits allow. */
  predicate WithinLimits(limits: Limits, f: WaveFormatEx)
  {
    f.samplesPerSec <= limits.maxSampleRate && f.blockAlign <= limits.LargestFrame()
  }

  /** Under valid limits the byte rate of such a format fits a DWORD. */
  lemma ByteRateFits(limits: Limits, f: WaveFormatEx)
    requires limits.Valid() && WithinLimits(limits, f)
    ensures f.samplesPerSec * f.blockAlign < 0x1_0000_0000
  {
    ProductBound(f.samplesPerSec, limits.maxSampleRate, f.blockAlign, limits.LargestFrame());
  }

  /** Under valid limits the WORD and DWORD conversions of an accepted format
      are the identity, and the frame is at least one byte. */
  lemma DerivationExact(limits: Limits, sampleRate: DWord, bits: nat, channelCount: DWord)
    requires limits.Valid()
    requires SampleRateAllowed(limits, sampleRate)
    requires ChannelCountAllowed(limits, channelCount)
    requires 0 < bits <= limits.WidestSample() && bits % CHAR_BIT == 0
    ensures ToWord(channelCount) == channelCount
    ensures ToWord(bits) == bits
    ensures 0 < channelCount * bits / CHAR_BIT <= limits.LargestFrame()
    ensures ToWord(channelCount * bits / CHAR_BIT) == channelCount * bits / CHAR_BIT
    ensures ToDWord(sampleRate * (channelCount * bits / CHAR_BIT))
         == sampleRate * (channelCount * bits / CHAR_BIT)
  {
    var frame := channelCount * bits / CHAR_BIT;
    FrameBounds(limits, bits, channelCount);
    ProductBound(sampleRate, limits.maxSampleRate, frame, limits.LargestFrame());
    var rate := sampleRate * frame;
    assert rate < 0x1_0000_0000;
    ConversionsExact(channelCount, bits, frame, rate);
  }

  /** A product of two bounded factors is bounded by the product of the bounds. */
  lemma ProductBound(a: nat, maxA: nat, b: nat, maxB: nat)
    requires a <= maxA && b <= maxB
    ensures a * b <= maxA * maxB
  {
    MulMonotone(a, maxA, b);
    MulMonotone(b, maxB, maxA);
  }

  /** Values below 2^16 survive `(WORD)` and values below 2^32 survive `(DWORD)`. */
  lemma ConversionsExact(channels: nat, bits: nat, frame: nat, rate: nat)
    requires channels < 0x1_0000 && bits < 0x1_0000 && frame < 0x1_0000 && rate < 0x1_0000_0000
    ensures ToWord(channels) == channels && ToWord(bits) == bits && ToWord(frame) == frame
    ensures ToDWord(rate) == rate
  {
  }

  /** An accepted channel count and sample width give a frame of at least
      one byte and at most the largest frame the limits allow. */
  lemma FrameBounds(limits: Limits, bits: nat, channelCount: DWord)
    requires ChannelCountAllowed(limits, channelCount) && 1 <= limits.minChannelCount
    requires 0 < bits <= limits.WidestSample() && bits % CHAR_BIT == 0
    ensures 0 < channelCount * bits / CHAR_BIT <= limits.LargestFrame()
  {
    var w := limits.WidestSample();
    var product := channelCount * bits;
    assert product <= limits.maxChannelCount * w by {
      MulMonotone(channelCount, limits.maxChannelCount, bits);
      MulMonotone(bits, w, limits.maxChannelCount);
    }
    assert product >= 8 by {
      MulMonotone(1, channelCount, bits);
    }
    DivMonotone(product, limits.maxChannelCount * w);
  }

  /** Dividing by a byte's width is monotone. */
  lemma DivMonotone(a: nat, b: nat)
    requires a <= b
    ensures a / 8 <= b / 8
  {
  }

  /** Multiplication by a natural number is monotone. */
  lemma MulMonotone(a: nat, b: nat, c: nat)
    requires a <= b
    ensures a * c <= b * c && c * a <= c * b
  {
  }

  /** The header's promise for IEEE float: whatever bit depth the caller
      passes, an accepted float format is a 32-bit stream whose frame is four
      bytes per channel. */
  lemma FloatIsThirtyTwoBit(limits: Limits, sampleRate: DWord, bitDepth: DWord, channelCount: DWord)
    requires limits.Valid()
    requires MakeCaptureFormat(limits, sampleRate, bitDepth, channelCount, WAVE_FORMAT_IEEE_FLOAT).Ok?
    ensures var f := MakeCaptureFormat(limits, sampleRate, bitDepth, channelCount, WAVE_FORMAT_IEEE_FLOAT).value;
            f.bitsPerSample == 32 && f.blockAlign == 4 * channelCount
            && f.avgBytesPerSec == 4 * channelCount * sampleRate
  {
    AcceptedFormat(limits, sampleRate, bitDepth, channelCount, WAVE_FORMAT_IEEE_FLOAT);
  }
}
