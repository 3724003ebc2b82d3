/** The per-chunk driver of the streaming voice-activity detector, class `Vad` of
    online-vad.cc: the buffer append, the pass gate, the stitcher, the
    end-of-recording flush and the decoder-reset bookkeeping of `Compute_online`,
    and `reinitiate`. The decoder, feature pipeline and segmenter are inputs:
    what they deliver on a pass chunk is a `PassInput`. */
module OnlineVad {
  import opened VadConfig
  import opened Stitcher

  /** The fields of a `Vad` that `Compute_online` and `reinitiate` read and write,
      as one value; `emitted` stands for the lines written to the segment file. */
  datatype VadState = VadState(
    waveBuffer: seq<real>,
    waveMemory: seq<real>,
    numChunksLat: nat,
    numFramesTotal: real,
    oldFramesDecoded: int,
    newFramesDecoded: int,
    stitch: StitchState,
    emitted: seq<Emission>)

  /** What the collaborators deliver on a pass chunk: the length of the best-path
      alignment, the raw segments of the segmenter after its post-processing, and
      the number of frames the new feature pipeline has ready after a reset. */
  datatype PassInput = PassInput(alignmentSize: int, segments: seq<RawSegment>, framesReadyAfterReset: int)

  /** The new state, the value `Compute_online` returns, and the rows it appends to
      the caller's `seg_times`. */
  datatype ChunkResult = ChunkResult(state: VadState, cont: bool, rows: seq<Row>)

  /** The state the constructor leaves (online-vad.cc, lines 11 and 21-32). */
  function InitialState(): VadState {
    VadState([], [], 0, InitialFrameOffset, 0, 0, StitchState(0.0, 0.0, 0.0, 0.0, 0, true), [])
  }

  /** The two-part gate of line 82, on the chunk count after the increment: enough
      frames beyond the skipped ones, and a multiple of `chunk_count_buf_`. */
  predicate PassDue(c: Config, chunks: nat)
    requires c.Valid()
  {
    ((chunks as real * c.chunkTime) / c.frameShift).Floor - c.numFramesSkipped > 0 &&
    chunks % c.chunkCountBuf == 0
  }

  /** Frames between time zero and the start of this pass's alignment slice, as
      used by the rebasing of lines 129-130. */
  function Offset(c: Config, s: VadState): real {
    s.numFramesTotal + Max0(s.oldFramesDecoded - c.numFramesSkipped) as real
  }

  function PassOf(c: Config, s: VadState, recording: bool, d: PassInput): Stitched
    requires |d.segments| > 0
  {
    Pass(c, Offset(c, s), s.stitch, d.segments, recording)
  }

  /** What a chunk needs to be processed without undefined behaviour: on a pass
      chunk a non-empty segment list (line 120 reads its first element), an
      alignment slice whose bounds are in order (line 97), and, when the pass ends
      in a reset, enough buffered samples for the carry-over tail (line 181). */
  predicate ChunkDefined(c: Config, s: VadState, chunk: seq<real>, recording: bool, d: PassInput)
    requires c.Valid()
  {
    PassDue(c, s.numChunksLat + 1) ==>
      |d.segments| > 0 &&
      Max0(s.oldFramesDecoded - c.numFramesSkipped) <= d.alignmentSize - c.numFramesSkipped <= d.alignmentSize &&
      (!PassOf(c, s, recording, d).state.cont ==> |s.waveBuffer| + |chunk| >= c.tailLen)
  }

  /** The reset of lines 175-194: the chunk counter restarts at `chunk_count_buf_`,
      the global frame offset is advanced, the last `tailLen` buffered samples
      become the carry-over memory, and the new decoder's ready frames are the
      new high-water mark. */
  function Reset(c: Config, s: VadState, framesReady: int): (r: VadState)
    requires c.Valid() && |s.waveBuffer| >= c.tailLen
    ensures |r.waveMemory| == c.tailLen
    ensures r.waveBuffer == s.waveBuffer && s.waveBuffer == s.waveBuffer[..|s.waveBuffer| - c.tailLen] + r.waveMemory
  {
    s.(numChunksLat := c.chunkCountBuf,
       numFramesTotal := s.numFramesTotal + s.oldFramesDecoded as real
                         - MaxR0(((|s.waveMemory| / c.sampleRate) as real - c.chunkTime) / c.frameShift)
                         + ResetFrameCorrection,
       waveMemory := s.waveBuffer[|s.waveBuffer| - c.tailLen..],
       newFramesDecoded := framesReady)
  }

  /** One call of `Compute_online` (lines 73-199). */
  function Compute(c: Config, s: VadState, chunk: seq<real>, recording: bool, d: PassInput): ChunkResult
    requires c.Valid() && ChunkDefined(c, s, chunk, recording, d)
  {
    var s1 := s.(waveBuffer := s.waveBuffer + chunk, numChunksLat := s.numChunksLat + 1);
    if !PassDue(c, s1.numChunksLat) then ChunkResult(s1, s.stitch.cont, [])
    else PassChunk(c, s1, recording, d)
  }

  /** The pass of lines 84-196 on a state whose buffer already holds the chunk:
      stitch, reset on a break, then carry the high-water mark and the memory
      over. */
  function PassChunk(c: Config, s: VadState, recording: bool, d: PassInput): ChunkResult
    requires c.Valid() && |d.segments| > 0
    requires !PassOf(c, s, recording, d).state.cont ==> |s.waveBuffer| >= c.tailLen
  {
    var p := PassOf(c, s, recording, d);
    var s2 := s.(newFramesDecoded := d.alignmentSize, stitch := p.state, emitted := s.emitted + p.emits);
    ChunkResult(AfterStitch(c, s2, d.framesReadyAfterReset), p.state.cont, p.rows)
  }

  /** Lines 173-196 on the state the stitcher leaves: reset when it ended on a
      break, then, on every pass, carry the high-water mark over and make the
      buffer a copy of the carry-over memory. */
  function AfterStitch(c: Config, s: VadState, framesReady: int): VadState
    requires c.Valid() && (!s.stitch.cont ==> |s.waveBuffer| >= c.tailLen)
  {
    var s3 := if s.stitch.cont then s else Reset(c, s, framesReady);
    s3.(oldFramesDecoded := s3.newFramesDecoded, waveBuffer := s3.waveMemory)
  }

  /** `reinitiate` (lines 58-67). */
  function Reinit(s: VadState): VadState {
    s.(numFramesTotal := 0.0, numChunksLat := 0,
       stitch := StitchState(0.0, 0.0, 0.0, 0.0, s.stitch.segNo, true))
  }

  /** `seg_no_` counts the lines written so far, numbered 1, 2, ... */
  ghost predicate Numbered(s: VadState) {
    s.stitch.segNo == |s.emitted| && NumberedFrom(s.emitted, 0)
  }

  /** The carry-over memory is empty until the first reset and `tailLen` long
      after it. */
  ghost predicate MemoryShaped(c: Config, s: VadState) {
    |s.waveMemory| == 0 || |s.waveMemory| == c.tailLen
  }

  //// Properties of one chunk

  /** A chunk that does not open the gate only grows the buffer and the chunk
      counter; everything else, the trace and the segment file stay as they were,
      and the stale `isrecognize_cont` is returned, even when the recording ended. */
  lemma NoPassNothingElseChanges(c: Config, s: VadState, chunk: seq<real>, recording: bool, d: PassInput)
    requires c.Valid() && ChunkDefined(c, s, chunk, recording, d)
    requires !PassDue(c, s.numChunksLat + 1)
    ensures var r := Compute(c, s, chunk, recording, d);
            r.state == s.(waveBuffer := s.waveBuffer + chunk, numChunksLat := s.numChunksLat + 1) &&
            r.cont == s.stitch.cont && r.rows == []
  {
  }

  /** The chunk counter goes up by one per call, except after a reset, which sets
      it to `chunk_count_buf_`. */
  lemma ChunkCounted(c: Config, s: VadState, chunk: seq<real>, recording: bool, d: PassInput)
    requires c.Valid() && ChunkDefined(c, s, chunk, recording, d)
    ensures var r := Compute(c, s, chunk, recording, d);
            r.state.numChunksLat == s.numChunksLat + 1 ||
            (r.state.numChunksLat == c.chunkCountBuf && PassDue(c, s.numChunksLat + 1) && !r.cont)
  {
  }

  /** A reset happens exactly on a pass chunk that returns false: only then do the
      global frame offset and the carry-over memory change, and then the counter
      is `chunk_count_buf_`, the memory is the last `tailLen` samples of the grown
      buffer, and the new decoder's ready frames become the high-water mark. */
  lemma ResetOnlyOnBreak(c: Config, s: VadState, chunk: seq<real>, recording: bool, d: PassInput)
    requires c.Valid() && ChunkDefined(c, s, chunk, recording, d)
    ensures var r := Compute(c, s, chunk, recording, d);
            (r.state.numFramesTotal != s.numFramesTotal || r.state.waveMemory != s.waveMemory ==>
               PassDue(c, s.numChunksLat + 1) && !r.cont)
    ensures var r := Compute(c, s, chunk, recording, d);
            var grown := s.waveBuffer + chunk;
            PassDue(c, s.numChunksLat + 1) && !r.cont ==>
              r.state.numChunksLat == c.chunkCountBuf &&
              |r.state.waveMemory| == c.tailLen &&
              grown == grown[..|grown| - c.tailLen] + r.state.waveMemory &&
              r.state.oldFramesDecoded == d.framesReadyAfterReset
  {
  }

  /** Every pass, reset or not, makes the buffer a copy of the carry-over memory
      and the current high-water mark the old one; without a reset the memory is
      the previous one and the mark is the alignment length. */
  lemma EveryPassBookkeeping(c: Config, s: VadState, chunk: seq<real>, recording: bool, d: PassInput)
    requires c.Valid() && ChunkDefined(c, s, chunk, recording, d)
    requires PassDue(c, s.numChunksLat + 1)
    ensures var r := Compute(c, s, chunk, recording, d);
            r.state.waveBuffer == r.state.waveMemory &&
            r.state.oldFramesDecoded == r.state.newFramesDecoded &&
            (r.cont ==>
               r.state.waveMemory == s.waveMemory &&
               r.state.oldFramesDecoded == d.alignmentSize &&
               r.state.numFramesTotal == s.numFramesTotal &&
               r.state.numChunksLat == s.numChunksLat + 1)
  {
  }

  /** The value returned on a pass chunk is false exactly when the raw segments
      were stitched and the last iteration wrote the pending segment to the
      segment file. */
  lemma BreakIsLastEmission(c: Config, s: VadState, chunk: seq<real>, recording: bool, d: PassInput)
    requires c.Valid() && ChunkDefined(c, s, chunk, recording, d)
    requires PassDue(c, s.numChunksLat + 1)
    ensures var r := Compute(c, s, chunk, recording, d);
            var segs := d.segments;
            !r.cont <==>
              Length(segs[0]) > 1 &&
              Step(c, Offset(c, s), Loop(c, Offset(c, s), s.stitch, segs[..|segs| - 1]).state,
                   segs[|segs| - 1]).emits != []
  {
    PassBreak(c, Offset(c, s), s.stitch, d.segments, recording);
  }

  /** Where a chunk's lines and line counter come from: the pass, on a pass chunk
      (the buffer and counter it grew are not read by the stitcher). */
  lemma ComputeEmits(c: Config, s: VadState, chunk: seq<real>, recording: bool, d: PassInput)
    requires c.Valid() && ChunkDefined(c, s, chunk, recording, d)
    ensures var r := Compute(c, s, chunk, recording, d);
            if PassDue(c, s.numChunksLat + 1) then
              var p := PassOf(c, s, recording, d);
              r.state.emitted == s.emitted + p.emits && r.state.stitch.segNo == p.state.segNo
            else
              r.state.emitted == s.emitted && r.state.stitch == s.stitch
  {
  }

  /** The segment file and `seg_no_` stay in step: every call keeps `seg_no_` equal
      to the number of lines written and the lines numbered consecutively. */
  lemma ComputeKeepsNumbering(c: Config, s: VadState, chunk: seq<real>, recording: bool, d: PassInput)
    requires c.Valid() && ChunkDefined(c, s, chunk, recording, d)
    requires Numbered(s)
    ensures Numbered(Compute(c, s, chunk, recording, d).state)
  {
    ComputeEmits(c, s, chunk, recording, d);
    if PassDue(c, s.numChunksLat + 1) {
      var p := PassOf(c, s, recording, d);
      PassNumbering(c, Offset(c, s), s.stitch, d.segments, recording);
      var e := s.emitted + p.emits;
      forall k | 0 <= k < |e| ensures e[k].no == k + 1 {
        if k >= |s.emitted| {
          assert e[k] == p.emits[k - |s.emitted|];
        }
      }
    }
  }

  /** Lines reach the segment file only on pass chunks. On a pass chunk of an
      ongoing recording every new line has positive duration; when the recording
      has ended, exactly one more line follows them, the pending segment as the
      pass leaves it, of whatever duration. */
  lemma EmissionsOnPassOnly(c: Config, s: VadState, chunk: seq<real>, recording: bool, d: PassInput)
    requires c.Valid() && ChunkDefined(c, s, chunk, recording, d)
    ensures var r := Compute(c, s, chunk, recording, d);
            |r.state.emitted| >= |s.emitted| && r.state.emitted[..|s.emitted|] == s.emitted
    ensures var r := Compute(c, s, chunk, recording, d);
            !PassDue(c, s.numChunksLat + 1) ==> r.state.emitted == s.emitted
    ensures var r := Compute(c, s, chunk, recording, d);
            PassDue(c, s.numChunksLat + 1) && recording ==>
              forall k :: |s.emitted| <= k < |r.state.emitted| ==>
                r.state.emitted[k].start < r.state.emitted[k].end
    ensures var r := Compute(c, s, chunk, recording, d);
            PassDue(c, s.numChunksLat + 1) && !recording ==>
              var going := PassOf(c, s, true, d);
              r.state.emitted == s.emitted + going.emits +
                                 [Emission(going.state.segNo + 1, going.state.prevStart, going.state.prevEnd)]
  {
    ComputeEmits(c, s, chunk, recording, d);
    if PassDue(c, s.numChunksLat + 1) {
      var r := Compute(c, s, chunk, recording, d);
      var p := PassOf(c, s, recording, d);
      PassNumbering(c, Offset(c, s), s.stitch, d.segments, recording);
      assert r.state.emitted == s.emitted + p.emits;
      assert r.state.emitted[..|s.emitted|] == s.emitted;
      if recording {
        forall k | |s.emitted| <= k < |r.state.emitted|
          ensures r.state.emitted[k].start < r.state.emitted[k].end
        {
          assert r.state.emitted[k] == p.emits[k - |s.emitted|];
        }
      } else {
        EndOfRecordingLines(c, s, chunk, d);
      }
    }
  }

  /** The lines of a pass chunk at the end of the recording: those of the same
      pass on an ongoing recording, then the final pending segment. */
  lemma EndOfRecordingLines(c: Config, s: VadState, chunk: seq<real>, d: PassInput)
    requires c.Valid() && ChunkDefined(c, s, chunk, false, d) && PassDue(c, s.numChunksLat + 1)
    ensures var going := PassOf(c, s, true, d);
            Compute(c, s, chunk, false, d).state.emitted ==
              s.emitted + going.emits + [Emission(going.state.segNo + 1, going.state.prevStart, going.state.prevEnd)]
  {
    ComputeEmits(c, s, chunk, false, d);
    PassEndOfRecording(c, Offset(c, s), s.stitch, d.segments);
    var going := PassOf(c, s, true, d);
    var flush := [Emission(going.state.segNo + 1, going.state.prevStart, going.state.prevEnd)];
    assert s.emitted + (going.emits + flush) == s.emitted + going.emits + flush;
  }

  /** The carry-over memory is empty before the first reset and exactly `tailLen`
      samples after any reset. */
  lemma ComputeKeepsMemoryShape(c: Config, s: VadState, chunk: seq<real>, recording: bool, d: PassInput)
    requires c.Valid() && ChunkDefined(c, s, chunk, recording, d)
    requires MemoryShaped(c, s)
    ensures MemoryShaped(c, Compute(c, s, chunk, recording, d).state)
  {
  }

  /** `reinitiate` restarts the logical utterance: the counters and the pending and
      candidate segments are zero and `isrecognize_cont` is true, while `seg_no_`,
      the segment file, the high-water marks and both buffers are kept; doing it
      twice is the same as doing it once. */
  lemma ReinitProperties(s: VadState)
    ensures var r := Reinit(s);
            r.numFramesTotal == 0.0 && r.numChunksLat == 0 &&
            r.stitch.prevStart == r.stitch.prevEnd == r.stitch.currStart == r.stitch.currEnd == 0.0 &&
            r.stitch.cont &&
            r.stitch.segNo == s.stitch.segNo && r.emitted == s.emitted &&
            r.oldFramesDecoded == s.oldFramesDecoded && r.newFramesDecoded == s.newFramesDecoded &&
            r.waveBuffer == s.waveBuffer && r.waveMemory == s.waveMemory
    ensures Reinit(Reinit(s)) == Reinit(s)
  {
  }

  //// The buffer loops

  /** `wave_buffer_.Resize(Dim + n, kCopyData)` followed by the copy loop of lines
      73-75: the buffer grows by exactly the chunk, its old prefix is kept and its
      new tail is the chunk. */
  method AppendChunk(buffer: array<real>, chunk: seq<real>) returns (grown: array<real>)
    ensures grown.Length == buffer.Length + |chunk|
    ensures grown[..buffer.Length] == buffer[..]
    ensures grown[buffer.Length..] == chunk
    ensures grown[..] == buffer[..] + chunk
  {
    grown := new real[buffer.Length + |chunk|];
    var k := 0;
    while k < buffer.Length
      invariant 0 <= k <= buffer.Length
      invariant forall j :: 0 <= j < k ==> grown[j] == buffer[j]
    {
      grown[k] := buffer[k];
      k := k + 1;
    }
    var i := 0;
    while i < |chunk|
      invariant 0 <= i <= |chunk|
      invariant forall j :: 0 <= j < buffer.Length ==> grown[j] == buffer[j]
      invariant forall j :: 0 <= j < i ==> grown[grown.Length - |chunk| + j] == chunk[j]
    {
      grown[grown.Length - |chunk| + i] := chunk[i];
      i := i + 1;
    }
    assert grown[..] == buffer[..] + chunk;
  }

  /** `wave_memory.Resize(n, kSetZero)` followed by the copy loop of lines 179-181:
      the last `n` samples of the buffer. */
  method TailCopy(buffer: array<real>, n: nat) returns (memory: array<real>)
    requires n <= buffer.Length
    ensures memory[..] == buffer[buffer.Length - n..]
  {
    memory := new real[n];
    var i := 0;
    while i < n
      invariant 0 <= i <= n
      invariant forall j :: 0 <= j < i ==> memory[j] == buffer[buffer.Length - memory.Length + j]
    {
      memory[i] := buffer[buffer.Length - memory.Length + i];
      i := i + 1;
    }
  }

  /** The vector assignment `wave_buffer_ = wave_memory` of line 196, which copies. */
  method Clone(source: array<real>) returns (copy: array<real>)
    ensures copy[..] == source[..]
  {
    copy := new real[source.Length];
    var i := 0;
    while i < source.Length
      invariant 0 <= i <= source.Length
      invariant forall j :: 0 <= j < i ==> copy[j] == source[j]
    {
      copy[i] := source[i];
      i := i + 1;
    }
  }

  //// The detector object

  class Vad {
    const cfg: Config
    var waveBuffer: array<real>
    var waveMemory: array<real>
    var numChunksLat: nat
    var numFramesTotal: real
    var oldFramesDecoded: int
    var newFramesDecoded: int
    var prevStart: real
    var prevEnd: real
    var currStart: real
    var currEnd: real
    var segNo: nat
    var isRecognizeCont: bool
    /** The lines written to the segment file, in order. */
    ghost var emitted: seq<Emission>

    ghost function State(): VadState
      reads this, waveBuffer, waveMemory
    {
      VadState(waveBuffer[..], waveMemory[..], numChunksLat, numFramesTotal,
               oldFramesDecoded, newFramesDecoded, Stitch(), emitted)
    }

    /** The stitcher's fields. */
    ghost function Stitch(): StitchState
      reads this
    {
      StitchState(prevStart, prevEnd, currStart, currEnd, segNo, isRecognizeCont)
    }

    /** The fields the stitcher leaves alone. */
    ghost function Bookkeeping(): (array<real>, array<real>, nat, real, int, int)
      reads this
    {
      (waveBuffer, waveMemory, numChunksLat, numFramesTotal, oldFramesDecoded, newFramesDecoded)
    }

    /** The configuration is valid, `seg_no_` counts the lines written, and the
        carry-over memory has its shape (see `Numbered` and `MemoryShaped`). */
    ghost predicate Valid()
      reads this
    {
      cfg.Valid() && segNo == |emitted| && NumberedFrom(emitted, 0) &&
      (waveMemory.Length == 0 || waveMemory.Length == cfg.tailLen)
    }

    constructor (c: Config)
      requires c.Valid()
      ensures Valid() && cfg == c && State() == InitialState()
    {
      cfg := c;
      waveBuffer := new real[0];
      waveMemory := new real[0];
      numChunksLat := 0;
      numFramesTotal := InitialFrameOffset;
      oldFramesDecoded := 0;
      newFramesDecoded := 0;
      prevStart := 0.0;
      prevEnd := 0.0;
      currStart := 0.0;
      currEnd := 0.0;
      segNo := 0;
      isRecognizeCont := true;
      emitted := [];
    }

    method Reinitiate()
      requires Valid()
      modifies this
      ensures Valid() && State() == Reinit(old(State()))
    {
      isRecognizeCont := true;
      numFramesTotal := 0.0;
      numChunksLat := 0;
      prevStart := 0.0;
      prevEnd := 0.0;
      currStart := 0.0;
      currEnd := 0.0;
      assert waveBuffer[..] == old(waveBuffer[..]) && waveMemory[..] == old(waveMemory[..]);
    }

    /** `Compute_online`: buffer the chunk, count it, and on a pass chunk stitch
        the decoder's raw segments, flush at the end of the recording, reset on a
        break, and carry the high-water mark and the memory over. */
    method ComputeOnline(chunk: seq<real>, segTimes: seq<Row>, recording: bool, d: PassInput)
      returns (cont: bool, segTimesOut: seq<Row>)
      requires Valid() && ChunkDefined(cfg, State(), chunk, recording, d)
      modifies this
      ensures Valid()
      ensures var r := Compute(cfg, old(State()), chunk, recording, d);
              State() == r.state && cont == r.cont && segTimesOut == segTimes + r.rows
    {
      ghost var s0 := State();
      waveBuffer := AppendChunk(waveBuffer, chunk);
      numChunksLat := numChunksLat + 1;
      assert State() == s0.(waveBuffer := s0.waveBuffer + chunk, numChunksLat := s0.numChunksLat + 1);
      segTimesOut := segTimes;
      if PassDue(cfg, numChunksLat) {
        segTimesOut := RunPass(segTimes, recording, d);
      }
      cont := isRecognizeCont;
    }

    /** Lines 84-196 on a pass chunk, with the decoder's output given by `d`. */
    method RunPass(segTimes: seq<Row>, recording: bool, d: PassInput) returns (segTimesOut: seq<Row>)
      requires Valid() && |d.segments| > 0
      requires !PassOf(cfg, State(), recording, d).state.cont ==> waveBuffer.Length >= cfg.tailLen
      modifies this
      ensures Valid()
      ensures var r := PassChunk(cfg, old(State()), recording, d);
              State() == r.state && isRecognizeCont == r.cont && segTimesOut == segTimes + r.rows
    {
      ghost var s0 := State();
      ghost var p := PassOf(cfg, s0, recording, d);
      newFramesDecoded := d.alignmentSize;
      segTimesOut := StitchPass(d.segments, segTimes, recording, Offset(cfg, s0));
      ghost var s2 := s0.(newFramesDecoded := d.alignmentSize, stitch := p.state, emitted := s0.emitted + p.emits);
      assert State() == s2;
      FinishPass(d.framesReadyAfterReset);
    }

    /** Lines 173-196: reset the decoder when the stitcher ended on a break, then
        carry the high-water mark and the carry-over memory over. */
    method FinishPass(framesReady: int)
      requires Valid() && (!isRecognizeCont ==> waveBuffer.Length >= cfg.tailLen)
      modifies this
      ensures Valid() && State() == AfterStitch(cfg, old(State()), framesReady)
    {
      if !isRecognizeCont {
        ResetDecoder(framesReady);
      }
      oldFramesDecoded := newFramesDecoded;
      waveBuffer := Clone(waveMemory);
    }

    /** Lines 120-170: the silence check, the loop over raw segments, the tail row
        and the end-of-recording line. */
    method StitchPass(segs: seq<RawSegment>, segTimes: seq<Row>, recording: bool, ghost offset: real)
      returns (segTimesOut: seq<Row>)
      requires Valid() && |segs| > 0
      requires offset == numFramesTotal + Max0(oldFramesDecoded - cfg.numFramesSkipped) as real
      modifies this
      ensures Valid() && Bookkeeping() == old(Bookkeeping())
      ensures var p := Pass(cfg, offset, old(Stitch()), segs, recording);
              Stitch() == p.state && emitted == old(emitted) + p.emits &&
              segTimesOut == segTimes + p.rows
    {
      segTimesOut := segTimes;
      if Length(segs[0]) <= 1 {
        isRecognizeCont := true;
      }
      if Length(segs[0]) > 1 {
        segTimesOut := StitchLoop(segs, segTimes, offset);
        if prevEnd - prevStart > 0.0 {
          segTimesOut := segTimesOut + [Row(prevStart, prevEnd)];
        }
      }
      ghost var body := Pass(cfg, offset, old(Stitch()), segs, true);
      assert Stitch() == body.state && emitted == old(emitted) + body.emits &&
             segTimesOut == segTimes + body.rows;
      if !recording {
        segNo := segNo + 1;
        emitted := emitted + [Emission(segNo, prevStart, prevEnd)];
      }
    }

    /** The loop of lines 127-158 over every raw segment of the pass. */
    method StitchLoop(segs: seq<RawSegment>, segTimes: seq<Row>, ghost offset: real)
      returns (segTimesOut: seq<Row>)
      requires Valid()
      requires offset == numFramesTotal + Max0(oldFramesDecoded - cfg.numFramesSkipped) as real
      modifies this
      ensures Valid() && Bookkeeping() == old(Bookkeeping())
      ensures var l := Loop(cfg, offset, old(Stitch()), segs);
              Stitch() == l.state && emitted == old(emitted) + l.emits &&
              segTimesOut == segTimes + l.rows
    {
      ghost var st0 := Stitch();
      ghost var e0 := emitted;
      segTimesOut := segTimes;
      var i := 0;
      while i < |segs|
        invariant 0 <= i <= |segs|
        invariant Valid() && Bookkeeping() == old(Bookkeeping())
        invariant offset == numFramesTotal + Max0(oldFramesDecoded - cfg.numFramesSkipped) as real
        invariant var l := Loop(cfg, offset, st0, segs[..i]);
                  Stitch() == l.state && emitted == e0 + l.emits && segTimesOut == segTimes + l.rows
      {
        ghost var before := Loop(cfg, offset, st0, segs[..i]);
        var row := StitchSegment(segs[i], offset);
        segTimesOut := segTimesOut + [row];
        assert segs[..i + 1][..i] == segs[..i];
        assert Loop(cfg, offset, st0, segs[..i + 1]).rows == before.rows + [row];
        i := i + 1;
      }
      assert segs[..|segs|] == segs;
    }

    /** One iteration of the loop of lines 127-158: rebase the raw segment, pad,
        run the two merge tests, emit the pending segment when it is finished, and
        hand back its trace row. */
    method StitchSegment(seg: RawSegment, ghost offset: real) returns (row: Row)
      requires Valid() && offset == numFramesTotal + Max0(oldFramesDecoded - cfg.numFramesSkipped) as real
      modifies this
      ensures Valid() && Bookkeeping() == old(Bookkeeping())
      ensures var r := Step(cfg, offset, old(Stitch()), seg);
              Stitch() == r.state && emitted == old(emitted) + r.emits && [row] == r.rows
    {
      ghost var st := Stitch();
      var frames := numFramesTotal + Max0(oldFramesDecoded - cfg.numFramesSkipped) as real;
      currStart := frames * cfg.frameShift + seg.startFrame as real * cfg.frameShift;
      currEnd := frames * cfg.frameShift + (seg.endFrame + 1) as real * cfg.frameShift + cfg.frameOverlap;
      ghost var cand := Candidate(cfg, offset, seg);
      assert currStart == cand.start && currEnd == cand.end;
      ghost var p := Pad(cfg, st.prevStart, st.prevEnd, cand.start);
      PadAndMerge();
      assert currStart == p.start && prevEnd == p.prevEnd && currEnd == cand.end;
      row := CloseSegment();
      StepIs(cfg, offset, st, seg, cand, p);
    }

    /** Lines 143-157: emit the padded pending segment when the padded candidate
        starts strictly after it and it has positive duration, hand back its trace
        row, and make the candidate the pending segment. */
    method CloseSegment() returns (row: Row)
      requires Valid()
      modifies this
      ensures Valid() && Bookkeeping() == old(Bookkeeping())
      ensures var finished := old(currStart - prevEnd > 0.0 && prevEnd - prevStart > 0.0);
              row == Row(old(prevStart), old(prevEnd)) &&
              Stitch() == StitchState(old(currStart), old(currEnd), old(currStart), old(currEnd),
                                      if finished then old(segNo) + 1 else old(segNo), !finished) &&
              emitted == old(emitted) +
                         if finished then [Emission(old(segNo) + 1, old(prevStart), old(prevEnd))] else []
    {
      if currStart - prevEnd > 0.0 && prevEnd - prevStart > 0.0 {
        isRecognizeCont := false;
        segNo := segNo + 1;
        emitted := emitted + [Emission(segNo, prevStart, prevEnd)];
      } else {
        isRecognizeCont := true;
      }
      row := Row(prevStart, prevEnd);
      prevStart := currStart;
      prevEnd := currEnd;
    }

    /** Lines 133-141: pad the candidate start and the pending end, and let the
        candidate take over the pending start when either merge test fires. */
    method PadAndMerge()
      modifies this
      ensures var p := Pad(cfg, old(prevStart), old(prevEnd), old(currStart));
              currStart == p.start && prevEnd == p.prevEnd
      ensures prevStart == old(prevStart) && currEnd == old(currEnd) && segNo == old(segNo) &&
              isRecognizeCont == old(isRecognizeCont) && emitted == old(emitted) &&
              Bookkeeping() == old(Bookkeeping())
    {
      PrePadFields();
      PostPadFields();
    }

    /** Lines 133-138: the pre-padding and the first merge test. */
    method PrePadFields()
      modifies this
      ensures var p := PrePad(cfg, old(prevStart), old(prevEnd), old(currStart));
              currStart == p.start && prevEnd == p.prevEnd
      ensures prevStart == old(prevStart) && currEnd == old(currEnd) && segNo == old(segNo) &&
              isRecognizeCont == old(isRecognizeCont) && emitted == old(emitted) &&
              Bookkeeping() == old(Bookkeeping())
    {
      var start := currStart - cfg.padLength * cfg.frameShift;
      var end := prevEnd;
      if end > 0.0 { end := end + cfg.padLength * cfg.frameShift; }
      if start - end < cfg.maxIntersegmentLength as real * cfg.frameShift && end > 0.0 {
        start := prevStart;
      }
      currStart, prevEnd := start, end;
    }

    /** Lines 139-141: the post-padding and the second merge test. */
    method PostPadFields()
      modifies this
      ensures var p := PostPad(cfg, old(prevStart), old(currStart), old(prevEnd));
              currStart == p.start && prevEnd == p.prevEnd
      ensures prevStart == old(prevStart) && currEnd == old(currEnd) && segNo == old(segNo) &&
              isRecognizeCont == old(isRecognizeCont) && emitted == old(emitted) &&
              Bookkeeping() == old(Bookkeeping())
    {
      var start := currStart - cfg.postPadLength * cfg.frameShift;
      var end := prevEnd;
      if end > 0.0 { end := end + cfg.postPadLength * cfg.frameShift; }
      if start <= end && end > 0.0 { start := prevStart; }
      currStart, prevEnd := start, end;
    }

    /** Lines 173-194 without the decoder and pipeline calls: restart the chunk
        counter, advance the global frame offset, keep the buffer's tail as the
        carry-over memory, and take the new pipeline's ready frames. */
    method ResetDecoder(framesReady: int)
      requires Valid() && waveBuffer.Length >= cfg.tailLen
      modifies this
      ensures Valid() && State() == Reset(cfg, old(State()), framesReady)
    {
      numChunksLat := cfg.chunkCountBuf;
      numFramesTotal := numFramesTotal + oldFramesDecoded as real
                        - MaxR0(((waveMemory.Length / cfg.sampleRate) as real - cfg.chunkTime) / cfg.frameShift)
                        + ResetFrameCorrection;
      waveMemory := TailCopy(waveBuffer, cfg.tailLen);
      newFramesDecoded := framesReady;
    }
  }
}
