/** Session parameters of the streaming voice-activity detector, fixed when a `Vad`
    is constructed and never changed afterwards. */
module VadConfig {

  /** The options the detector keeps. Frame geometry and padding are times in
      seconds (`frameShift`, `frameOverlap`, `chunkTime`) or counts of frames
      (`padLength`, `postPadLength`, `maxIntersegmentLength`, `numFramesSkipped`).
      `chunkCountBuf` is the number of chunks between decode passes, derived by the
      constructor from the segment buffer length; `sampleRate` is the sampling
      frequency the decoder is fed with; `tailLen` is the number of samples kept as
      carry-over audio at a decoder reset. */
  datatype Config = Config(
    frameShift: real,
    frameOverlap: real,
    chunkTime: real,
    padLength: real,
    postPadLength: real,
    maxIntersegmentLength: int,
    numFramesSkipped: int,
    chunkCountBuf: nat,
    sampleRate: nat,
    tailLen: nat)
  {
    /** A frame lasts a positive time, passes come every `chunkCountBuf > 0`
        chunks, and the carry-over window holds exactly
        `chunkCountBuf * sampleRate * chunkTime` samples. */
    predicate Valid() {
      frameShift > 0.0 && chunkCountBuf > 0 && sampleRate > 0 &&
      tailLen as real == chunkCountBuf as real * sampleRate as real * chunkTime
    }
  }

  /** Frames the decoder is known to lag behind at the start of a session. */
  const InitialFrameOffset: real := 6.0

  /** Frames added to the global frame offset at every decoder reset. */
  const ResetFrameCorrection: real := 7.0

  function Max0(x: int): (r: nat)
    ensures r >= x && (r == 0 || r == x)
  {
    if x > 0 then x else 0
  }

  function MaxR0(x: real): (r: real)
    ensures r >= x && r >= 0.0 && (r == 0.0 || r == x)
  {
    if x > 0.0 then x else 0.0
  }
}
