/** The audio constants of src/config.py and the three millisecond-to-sample conversions
    built from them. */
module Config {

  const SampleRate: nat := 16000
  const ChunkMs: nat := 4000
  const OverlapMs: nat := 500
  /** The capture block size, written out as a literal in the configuration. */
  const BlockSize: nat := 64000
  const VadFrameMs: nat := 10
  const VadAggressiveness: nat := 0
  const Language: string := "ja"
  const MinSpeakers: nat := 1
  const MaxSpeakers: nat := 5

  /** `int(SAMPLE_RATE * ms / 1000)`: a true division truncated toward zero, which on the
      non-negative operands here is the floor of the exact quotient. */
  function MsToSamples(ms: nat): nat
  {
    SampleRate * ms / 1000
  }

  /** The conversion is the floor of `SAMPLE_RATE * ms / 1000`: the largest sample count
      whose duration does not exceed `ms` milliseconds. */
  lemma MsToSamplesIsFloor(ms: nat)
    ensures MsToSamples(ms) * 1000 <= SampleRate * ms < (MsToSamples(ms) + 1) * 1000
  {
  }

  /** Samples per transcription chunk: four seconds. */
  function ChunkSize(): (r: nat)
    ensures r == 4 * 16000
  {
    MsToSamples(ChunkMs)
  }

  /** Samples carried over from one chunk to the next: half a second. */
  function OverlapSize(): (r: nat)
    ensures 2 * r == 16000
  {
    MsToSamples(OverlapMs)
  }

  /** Samples per voice-activity frame: 10 ms at 16 kHz. */
  function VadFrameSize(): (r: nat)
    ensures 100 * r == 16000
  {
    MsToSamples(VadFrameMs)
  }

  /** The concrete values: 64000, 8000 and 160 samples. */
  lemma ConcreteSizes()
    ensures ChunkSize() == 64000 && OverlapSize() == 8000 && VadFrameSize() == 160
  {
  }

  /** The chunk size the VAD tests expect (32000) is the two-second size; with the
      four-second CHUNK_MS of the configuration the size is 64000. */
  lemma ChunkSizeIsNotTwoSeconds()
    ensures ChunkSize() != 32000 && MsToSamples(2000) == 32000
  {
  }

  /** After a chunk is extracted, `ChunkSize() - OverlapSize()` samples are dropped; this
      count is positive, so every extraction makes progress. */
  lemma OverlapBelowChunk()
    ensures 0 < OverlapSize() < ChunkSize()
    ensures ChunkSize() + OverlapSize() == 72000
  {
  }

  /** The capture block is one chunk: four seconds of audio. */
  lemma BlockIsOneChunk()
    ensures BlockSize == ChunkSize() == 4 * SampleRate
  {
  }
}
