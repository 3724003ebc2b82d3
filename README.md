# Streaming voice-activity detector: stitching and bookkeeping engine

A Dafny model of class `Vad` in `online-vad.cc`, the control logic of a real-time
voice-activity detector. Audio arrives one chunk at a time. `Compute_online`
appends each chunk to a sample buffer and counts it. Every `chunk_count_buf_`
chunks it may run a decode pass; the gate also needs enough frames beyond the
skipped ones. A pass turns the segmenter's raw `(start_frame, end_frame)` pairs
into absolute times, pads them and merges them with the pending segment
(`prev_start`, `prev_end`). It writes numbered finished segments to the
segment file and appends a trace row per iteration to the caller's
`seg_times`. When a segment is finished (`isrecognize_cont` false), the decoder
is reset: the chunk counter restarts, the global frame offset
`num_frames_total` moves forward, and the buffer's tail becomes the carry-over
`wave_memory`. `reinitiate` zeroes the counters for a new logical utterance.

Layout:

- `config.dfy`, module `VadConfig`: the options (`Config`) and the two frame
  constants of the source (6 at construction, 7 at every reset).
- `stitcher.dfy`, module `Stitcher`: lines 120-170 as pure functions. These are
  `Candidate` (rebase), `Pad` (padding and the two merge tests), `Step` (one
  iteration), `Loop` (the loop) and `Pass` (silence check, tail row,
  end-of-recording line). Lemmas state what one iteration, the loop and a pass
  promise, plus two worked scenarios.
- `phones.dfy`, module `Phones`: the expansion of phone groups into one phone
  per frame (lines 100-107), as a loop proved against the function `Expanded`.
- `vad.dfy`, module `OnlineVad`: the specification of one call (`Compute`,
  `PassChunk`, `AfterStitch`, `Reset`) and of `reinitiate` (`Reinit`) on a value `VadState`,
  with lemmas about it, and class `Vad`. The class keeps the source's fields.
  Its methods update them in place, and the sample buffers are arrays filled by
  index loops. Every method's postcondition ties the new state to the
  specification functions.

Modelling choices:

- Times are `real`. A product or sum of `BaseFloat`s is exact here.
- The decoder, the feature pipeline and the segmenter are inputs. A `PassInput`
  carries the alignment length (line 94), the post-processed raw segments, and
  the ready-frame count of the new pipeline after a reset (line 194). They are
  read only on pass chunks.
- The segment file is the ghost sequence `emitted` of `(seg_no_, start, end)`.
- The sampling rate `SNT_KALDI_SMP_FREQ` is the option `sampleRate`. The header
  that defines it is not part of this model. `wave_memory.Dim()/SNT_KALDI_SMP_FREQ`
  on line 178 is taken as integer division, which assumes the constant is an
  integer literal.
- `num_frames_total` is a `real`, because its declaration is not part of this
  model. Line 178 is kept as a plain assignment of the same expression.
- A segment's length is `end_frame - start_frame + 1`. This is the segmenter
  library's convention; that library is not part of this model.
- The carry-over length `chunk_count_buf_*SNT_KALDI_SMP_FREQ*chunk_time_` is
  the option `tailLen`. `Config.Valid` requires it to equal that product, so
  the product must be a whole number of samples.

## Model

| member | source | states |
|---|---|---|
| `Stitcher.Candidate` | online-vad.cc:129-130 | The rebased candidate starts at `(offset + start_frame) * frame_shift_` and lasts `Length * frame_shift_ + frame_overlap_`. |
| `Stitcher.PrePad` | online-vad.cc:133-138 | The pre-padding and the first merge test; its properties are stated through `Step`, `MergeBlocksEmission` and `TraceRowPadded`. |
| `Stitcher.PostPad` | online-vad.cc:139-141 | The post-padding and the second merge test; its properties are stated through `Step`, `MergeBlocksEmission` and `TraceRowPadded`. |
| `Stitcher.Pad` | online-vad.cc:133-141 | Both paddings and both merge tests; its properties are stated through `Step`, `MergeBlocksEmission` and `TraceRowPadded`. |
| `Stitcher.Step` | online-vad.cc:129-157 | One iteration traces exactly one row, starting at the pre-update pending start (its padded end is given by `TraceRowPadded`). It emits at most one line. It emits exactly when the new pending start lies strictly after the traced end and the traced row has positive duration. `seg_no_` grows by the number of lines. `isrecognize_cont` is false exactly when it emits. An emitted line is numbered `seg_no_ + 1` and equals the traced row. The candidate becomes the pending segment: its end is the candidate end, and when neither merge test fires its start is the candidate start less both paddings. |
| `Stitcher.MergeBlocksEmission` | online-vad.cc:133-143 | When the second merge test fires, the candidate takes the pending start, nothing is emitted and `isrecognize_cont` is true, for any padding. When only the first fires, the candidate takes the pending start minus the post-pad; an emission then forces `post_pad_length_ * frame_shift_` below zero, so with a non-negative post-pad nothing is emitted and `isrecognize_cont` is true. |
| `Stitcher.TraceRowPadded` | online-vad.cc:133-154 | The traced pending end is the old end widened by `pad_length_` frames if it was positive, then by `post_pad_length_` frames if the result is positive. With non-negative pads this is a widening by `pad_length_ + post_pad_length_` frames of a positive end, and an end at most zero is unchanged. |
| `Stitcher.Loop` | online-vad.cc:127-158 | The loop over raw segments; its properties are stated by `LoopShape` and `LoopRowsArePendingSegments`. |
| `Stitcher.LoopShape` | online-vad.cc:127-158 | The loop traces one row per raw segment. `seg_no_` grows by the number of lines, which are numbered consecutively. Every emitted line has positive duration and appears in the trace. The last candidate end is the pending end. If the loop ends with `isrecognize_cont` false, its last line is the last iteration's row. |
| `Stitcher.LoopRowsArePendingSegments` | online-vad.cc:151-157 | The first trace row starts at the pending start the pass began with. Row k (any k, including 0) starts at the pending start left by the first k iterations. |
| `Stitcher.TailRows` | online-vad.cc:160-165 | The row traced after the loop; `PassRows` states when it appears. |
| `Stitcher.Pass` | online-vad.cc:120-170 | A whole pass; its properties are stated by `PassSilence`, `PassRows`, `PassNumbering`, `PassEndOfRecording` and `PassBreak`. |
| `Stitcher.PassSilence` | online-vad.cc:120-126 | If the first raw segment has length ≤ 1, there are no trace rows and the pending and candidate segments are unchanged. `isrecognize_cont` becomes true. While recording, nothing is emitted. |
| `Stitcher.PassRows` | online-vad.cc:151-165 | A stitching pass traces the loop's n rows, then one more row (the final pending segment) exactly when its duration is positive. So the trace grows by n or n+1. |
| `Stitcher.PassNumbering` | online-vad.cc:143-170 | After a pass, `seg_no_` has grown by exactly the number of lines, numbered consecutively. While recording, every line has positive duration. |
| `Stitcher.PassEndOfRecording` | online-vad.cc:167-170 | When the recording has ended, the pass writes the same lines as an ongoing one and then exactly one more: the final pending segment, numbered next, whatever its duration. Trace and state are otherwise identical. |
| `Stitcher.PassBreak` | online-vad.cc:120-150 | `isrecognize_cont` is false after a pass exactly when the pass stitched and its last iteration emitted. Then the loop traced one row per raw segment, and the last line has positive duration and equals the last loop row. |
| `Stitcher.ScenarioFirstPass` | online-vad.cc:120-165 | With 10 ms frames and no padding, a first pass over frames 10-20 writes no line, traces the empty initial pending segment and then `[0.10, 0.21]`, and leaves `[0.10, 0.21]` pending with `isrecognize_cont` true, whatever the tolerance. |
| `Stitcher.ScenarioMerge` | online-vad.cc:129-170 | With 10 ms frames, tolerance 5 and no padding, frames 10-20 then 22-30 (final pass) give one line, `[0.10, 0.31]`. |
| `Stitcher.ScenarioSplit` | online-vad.cc:129-170 | With tolerance 0, the same passes give two lines, `[0.10, 0.21]` and `[0.22, 0.31]`. |
| `Phones.Repeat` | online-vad.cc:105-106 | The inner loop's output: exactly n copies of the phone. |
| `Phones.Expanded` | online-vad.cc:100-107 | The per-frame phone list; `ExpandedLength`, `ExpandedAppend` and `ExpandedAtGroup` state its properties, and `ExpandPhones` is proved equal to it. |
| `Phones.ExpandedLength` | online-vad.cc:100-107 | The phone list has exactly one entry per frame of the alignment slice. |
| `Phones.ExpandedAppend` | online-vad.cc:100-107 | Expansion goes group by group: expanding concatenated group lists concatenates their expansions. |
| `Phones.ExpandedAtGroup` | online-vad.cc:101-107 | The frame at offset j of group i is labelled with the phone of that group's first transition id. |
| `Phones.ExpandPhones` | online-vad.cc:100-107 | The nested loops produce exactly `Expanded(groups)`. Every group must be non-empty (the assertion at line 102). |
| `OnlineVad.InitialState` | online-vad.cc:21-32 | The state the constructor leaves; `Vad.constructor` is proved to produce it. |
| `OnlineVad.PassDue` | online-vad.cc:82 | The two-part gate; `NoPassNothingElseChanges` and `EmissionsOnPassOnly` state what happens when it is closed. |
| `OnlineVad.Offset` | online-vad.cc:129-130 | The rebase offset of the stitcher, `num_frames_total` plus the skipped-frame-corrected old high-water mark. |
| `OnlineVad.Compute` | online-vad.cc:73-199 | One call of `Compute_online`; its properties are the lemmas `NoPassNothingElseChanges` to `ComputeKeepsMemoryShape`, and `Vad.ComputeOnline` is proved equal to it. |
| `OnlineVad.PassChunk` | online-vad.cc:84-196 | A pass chunk; `EveryPassBookkeeping`, `BreakIsLastEmission` and `ResetOnlyOnBreak` state its properties, and `Vad.RunPass` is proved equal to it. |
| `OnlineVad.AfterStitch` | online-vad.cc:173-196 | The reset on a break and the carry-over on every pass; `EveryPassBookkeeping` and `ResetOnlyOnBreak` state its properties, and `Vad.FinishPass` is proved equal to it. |
| `OnlineVad.Reinit` | online-vad.cc:58-67 | `reinitiate`; `ReinitProperties` states its properties and `Vad.Reinitiate` is proved equal to it. |
| `OnlineVad.Reset` | online-vad.cc:177-181 | The reset's carry-over memory is exactly `tailLen` samples. It is the buffer's suffix: the buffer is some prefix followed by the memory. |
| `OnlineVad.NoPassNothingElseChanges` | online-vad.cc:73-82 | On a chunk that fails the gate, only the buffer (grown by the chunk) and the chunk counter (+1) change. No trace rows or lines appear, even at the end of a recording. The stale `isrecognize_cont` is returned. |
| `OnlineVad.ChunkCounted` | online-vad.cc:77-177 | After a call, the chunk counter is either the old one plus 1, or `chunk_count_buf_` after a reset on a pass chunk returning false. |
| `OnlineVad.ResetOnlyOnBreak` | online-vad.cc:173-181 | The frame offset and the carry-over memory change only on a pass chunk that returns false. On such a chunk: the counter becomes `chunk_count_buf_`; the memory is the last `tailLen` samples of the grown buffer; the old high-water mark becomes the new pipeline's ready frames. |
| `OnlineVad.EveryPassBookkeeping` | online-vad.cc:194-196 | After every pass, the buffer equals the memory and the old high-water mark equals the new one. Without a reset, the memory and the frame offset are unchanged, the mark is the alignment length, and the counter is +1. |
| `OnlineVad.BreakIsLastEmission` | online-vad.cc:143-173 | On a pass chunk, `Compute_online` returns false exactly when the raw segments were stitched and the last iteration wrote a line. |
| `OnlineVad.ComputeKeepsNumbering` | online-vad.cc:147-168 | If `seg_no_` equals the number of lines written, numbered 1, 2, …, this still holds after any call. |
| `OnlineVad.EmissionsOnPassOnly` | online-vad.cc:82-170 | The segment file only grows. It grows only on pass chunks. While recording, new lines have positive duration. At the end of a recording, it gets the ongoing pass's lines plus exactly one line for the final pending segment. |
| `OnlineVad.ComputeKeepsMemoryShape` | online-vad.cc:21-181 | The carry-over memory stays either empty (before any reset) or exactly `tailLen` samples. |
| `OnlineVad.ReinitProperties` | online-vad.cc:58-67 | `reinitiate` zeroes the frame offset, the chunk counter and the pending and candidate segments, and sets `isrecognize_cont` true. It keeps `seg_no_`, the lines, both high-water marks and both buffers, and applying it twice equals applying it once. |
| `OnlineVad.AppendChunk` | online-vad.cc:73-75 | The buffer grows by exactly the chunk length. The old prefix is unchanged and the new tail equals the chunk. |
| `OnlineVad.TailCopy` | online-vad.cc:179-181 | The memory is exactly the last n samples of the buffer (needs n ≤ buffer length). |
| `OnlineVad.Clone` | online-vad.cc:196 | The copied buffer has the same contents as the memory. |
| `OnlineVad.Vad.constructor` | online-vad.cc:10-32 | The fields start as the constructor sets them: empty buffers, offset 6, zero counters and segments, `seg_no_` 0, `isrecognize_cont` true. |
| `OnlineVad.Vad.Reinitiate` | online-vad.cc:58-67 | The object's new state is `Reinit` of the old one. |
| `OnlineVad.Vad.ComputeOnline` | online-vad.cc:69-199 | The new state, the returned value and the rows appended to `seg_times` are those of `Compute` on the old state. |
| `OnlineVad.Vad.RunPass` | online-vad.cc:84-196 | A pass chunk leaves the state, `isrecognize_cont` and trace that `PassChunk` specifies. |
| `OnlineVad.Vad.FinishPass` | online-vad.cc:173-196 | The state after the stitcher becomes `AfterStitch` of it: `Reset` on a break, then on every pass the old high-water mark takes the new one and the buffer becomes a copy of the memory. |
| `OnlineVad.Vad.StitchPass` | online-vad.cc:120-170 | The stitcher fields, the lines and the trace become those of `Pass`. Buffers, counters and marks are untouched. |
| `OnlineVad.Vad.StitchLoop` | online-vad.cc:127-158 | The loop leaves the fields, lines and trace that `Loop` specifies. |
| `OnlineVad.Vad.StitchSegment` | online-vad.cc:129-157 | One iteration updates the fields, lines and trace row as `Step` specifies. |
| `OnlineVad.Vad.CloseSegment` | online-vad.cc:143-157 | The padded pending segment is written exactly when the padded candidate starts strictly after it and it has positive duration; `seg_no_`, `isrecognize_cont` and the lines change accordingly, the traced row is the padded pending segment, and the candidate becomes the pending segment. |
| `OnlineVad.Vad.PadAndMerge` | online-vad.cc:133-141 | The padded candidate start and pending end are those of `Pad`. Nothing else changes. |
| `OnlineVad.Vad.PrePadFields` | online-vad.cc:133-138 | The candidate start and pending end become those of `PrePad`. Nothing else changes. |
| `OnlineVad.Vad.PostPadFields` | online-vad.cc:139-141 | The candidate start and pending end become those of `PostPad`. Nothing else changes. |
| `OnlineVad.Vad.ResetDecoder` | online-vad.cc:173-194 | The new state is `Reset` of the old one. |

## Left out

- Decoder and feature pipeline are not modelled. This covers their
  construction, `AcceptWaveform`, `AdvanceDecoding`, `GetBestPath`,
  `GetLinearSymbolSequence`, `InputFinished` and `NumFramesReady` (lines 15-16,
  45-55, 78-80, 85-94, 175-176, 182-194). They are foreign code; their results
  are the `PassInput` values.
- `SplitToPhones`, `TransitionIdToPhone` and the segmenter's
  `InsertFromAlignment`, `RemoveSegments` and `MergeLabels` (lines 98, 103,
  113-118) are external libraries. The stitcher takes their raw segment list as
  given. `ExpandPhones` takes the phone groups and the transition-to-phone map
  as parameters.
- The segment file stream (lines 17, 148, 169) is output only. The text format
  and `wav_id` are dropped; the ghost `emitted` records number, start and end.
- Exceptions (lines 70, 200-203) are not modelled. Their guards become
  preconditions instead: the non-empty segment list (line 120), the alignment
  slice bounds (line 97) and the tail copy bound (line 181), in `ChunkDefined`;
  non-empty phone groups (line 102), in `ExpandPhones`.
- Floating point is not modelled: no `BaseFloat` rounding, and no
  float-to-integer truncation when `num_frames_total` or the memory size are
  assigned. The `ceil` deriving `chunk_count_buf_` (line 42) is replaced by the
  option `chunkCountBuf > 0`.
- Options the core only passes on to collaborators (energy threshold, speech
  offset, models, GPU logging) are not modelled.
- Not claimed, because the code does not ensure them: a monotone
  `num_frames_total`, non-decreasing start times across written lines, and
  start ≤ end for the end-of-recording line (lines 167-170). Line 178 can move
  the offset either way, and a merge can move a pending start back. The
  end-of-recording line is the pending segment as the pass leaves it, written
  whatever its duration; with raw segments out of order (say frames 10-20, then
  5-8, in an ended pass with a merge tolerance of five frames and no padding)
  the candidate takes the pending start and the line is written with its end
  before its start. The order of the segmenter's output is
  not part of this model.
