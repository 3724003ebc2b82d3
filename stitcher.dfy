/** The segment stitcher of `Vad::Compute_online` (online-vad.cc, lines 120-170) as
    pure functions: one decode pass turns a list of raw `(start_frame, end_frame)`
    pairs into trace rows for the caller and numbered emissions for the segment
    file, threading the pending segment (`prev_start`, `prev_end`) through. */
module Stitcher {
  import opened VadConfig

  /** A segment produced by the segmenter for one decode pass, in frames local to
      that pass; both ends are included. */
  datatype RawSegment = RawSegment(startFrame: int, endFrame: int)

  /** The segmenter's length of a segment: the number of frames it covers. */
  function Length(seg: RawSegment): int {
    seg.endFrame - seg.startFrame + 1
  }

  /** One row of the caller's `seg_times` trace: a `(start, end)` pair in seconds. */
  datatype Row = Row(start: real, end: real)

  /** One line written to the segment file: `<wav>_<no> <wav> <start> <end>`. */
  datatype Emission = Emission(no: nat, start: real, end: real)

  /** The stitcher's part of the detector state: the pending segment, the
      candidate of the latest iteration, the emission counter `seg_no_` and the
      `isrecognize_cont` flag. */
  datatype StitchState = StitchState(
    prevStart: real, prevEnd: real,
    currStart: real, currEnd: real,
    segNo: nat, cont: bool)

  /** What a run of the stitcher produces: the new state, the rows appended to the
      trace and the lines written to the segment file, in order. */
  datatype Stitched = Stitched(state: StitchState, rows: seq<Row>, emits: seq<Emission>)

  /** Rebasing of a raw segment to absolute time (lines 129-130): `offset` is the
      global frame offset plus the frames already decoded before this pass. The
      end is exclusive of the last frame and widened by the frame overlap. */
  function Candidate(c: Config, offset: real, seg: RawSegment): (r: Row)
    ensures r.end - r.start == Length(seg) as real * c.frameShift + c.frameOverlap
    ensures r.start == (offset + seg.startFrame as real) * c.frameShift
  {
    Row(offset * c.frameShift + seg.startFrame as real * c.frameShift,
        offset * c.frameShift + (seg.endFrame + 1) as real * c.frameShift + c.frameOverlap)
  }

  /** The candidate start and the pending end after padding and the two merge
      tests (lines 133-141), with which of the two tests fired. */
  datatype Padded = Padded(start: real, prevEnd: real, merge1: bool, merge2: bool)

  /** Lines 133-138: pre-padding of the candidate start and, for a pending
      segment, of its end; then the first merge test. */
  function PrePad(c: Config, prevStart: real, prevEnd: real, candStart: real): Padded {
    var s1 := candStart - c.padLength * c.frameShift;
    var e1 := if prevEnd > 0.0 then prevEnd + c.padLength * c.frameShift else prevEnd;
    var merge1 := s1 - e1 < c.maxIntersegmentLength as real * c.frameShift && e1 > 0.0;
    Padded(if merge1 then prevStart else s1, e1, merge1, false)
  }

  /** Lines 139-141: post-padding of the (pre-padded) candidate start and, for a
      pending segment, of its (pre-padded) end; then the second merge test. */
  function PostPad(c: Config, prevStart: real, start: real, end: real): Padded {
    var s3 := start - c.postPadLength * c.frameShift;
    var e2 := if end > 0.0 then end + c.postPadLength * c.frameShift else end;
    var merge2 := s3 <= e2 && e2 > 0.0;
    Padded(if merge2 then prevStart else s3, e2, false, merge2)
  }

  /** Lines 133-141: the pre-padding and first merge test, then post-padding and
      the second merge test. */
  function Pad(c: Config, prevStart: real, prevEnd: real, candStart: real): Padded {
    var p1 := PrePad(c, prevStart, prevEnd, candStart);
    PostPad(c, prevStart, p1.start, p1.prevEnd).(merge1 := p1.merge1)
  }

  /** One iteration of the loop over raw segments (lines 129-157). The pending
      segment, with its padded end, is emitted when the new candidate starts
      strictly after it and it has positive duration; either way it is written to
      the trace, and the candidate becomes the new pending segment. */
  function Step(c: Config, offset: real, st: StitchState, seg: RawSegment): (r: Stitched)
    ensures |r.rows| == 1 && r.rows[0].start == st.prevStart
    ensures |r.emits| <= 1 && r.state.segNo == st.segNo + |r.emits|
    ensures r.state.cont <==> r.emits == []
    ensures r.emits != [] ==>
      r.emits[0] == Emission(st.segNo + 1, r.rows[0].start, r.rows[0].end) &&
      r.rows[0].start < r.rows[0].end
    ensures r.state.prevStart == r.state.currStart && r.state.prevEnd == r.state.currEnd
    ensures r.state.prevEnd == Candidate(c, offset, seg).end
    ensures r.emits != [] <==>
              r.state.prevStart - r.rows[0].end > 0.0 && r.rows[0].end - st.prevStart > 0.0
    ensures var p := Pad(c, st.prevStart, st.prevEnd, Candidate(c, offset, seg).start);
            !p.merge1 && !p.merge2 ==>
              r.state.prevStart ==
                Candidate(c, offset, seg).start - c.padLength * c.frameShift - c.postPadLength * c.frameShift
  {
    var cand := Candidate(c, offset, seg);
    var p := Pad(c, st.prevStart, st.prevEnd, cand.start);
    var emit := p.start - p.prevEnd > 0.0 && p.prevEnd - st.prevStart > 0.0;
    Stitched(
      StitchState(p.start, cand.end, p.start, cand.end,
                  if emit then st.segNo + 1 else st.segNo, !emit),
      [Row(st.prevStart, p.prevEnd)],
      if emit then [Emission(st.segNo + 1, st.prevStart, p.prevEnd)] else [])
  }

  /** `Step` in terms of its candidate and its padding. */
  lemma StepIs(c: Config, offset: real, st: StitchState, seg: RawSegment, cand: Row, p: Padded)
    requires cand == Candidate(c, offset, seg)
    requires p == Pad(c, st.prevStart, st.prevEnd, cand.start)
    ensures var finished := p.start - p.prevEnd > 0.0 && p.prevEnd - st.prevStart > 0.0;
            Step(c, offset, st, seg) ==
              Stitched(StitchState(p.start, cand.end, p.start, cand.end,
                                   if finished then st.segNo + 1 else st.segNo, !finished),
                       [Row(st.prevStart, p.prevEnd)],
                       if finished then [Emission(st.segNo + 1, st.prevStart, p.prevEnd)] else [])
  {
  }

  /** The loop of lines 127-158 over the first `|segs|` raw segments. */
  function Loop(c: Config, offset: real, st: StitchState, segs: seq<RawSegment>): Stitched
    decreases |segs|
  {
    if segs == [] then Stitched(st, [], [])
    else
      var before := Loop(c, offset, st, segs[..|segs| - 1]);
      var last := Step(c, offset, before.state, segs[|segs| - 1]);
      Stitched(last.state, before.rows + last.rows, before.emits + last.emits)
  }

  /** The row appended after the loop when the pending segment is still open with
      positive duration (lines 160-165). */
  function TailRows(st: StitchState): seq<Row> {
    if st.prevEnd - st.prevStart > 0.0 then [Row(st.prevStart, st.prevEnd)] else []
  }

  /** A whole decode pass (lines 120-170): a first raw segment of length at most
      one marks the pass as silence; otherwise the loop runs over every raw segment
      and the open tail is traced. When the recording has ended, the pending
      segment is emitted once more, whatever its duration. */
  function Pass(c: Config, offset: real, st: StitchState, segs: seq<RawSegment>,
                recording: bool): Stitched
    requires |segs| > 0
  {
    var body :=
      if Length(segs[0]) <= 1 then Stitched(st.(cont := true), [], [])
      else
        var l := Loop(c, offset, st, segs);
        Stitched(l.state, l.rows + TailRows(l.state), l.emits);
    if recording then body
    else
      var s := body.state;
      Stitched(s.(segNo := s.segNo + 1), body.rows,
               body.emits + [Emission(s.segNo + 1, s.prevStart, s.prevEnd)])
  }

  /** The emissions are numbered `from + 1`, `from + 2`, ... in order. */
  ghost predicate NumberedFrom(emits: seq<Emission>, from: nat) {
    forall k :: 0 <= k < |emits| ==> emits[k].no == from + 1 + k
  }

  //// Properties of one iteration

  /** When either merge test fires, the candidate takes over the pending
      segment's start (less the post-padding, when only the first test fires).
      The second test always rules out an emission in that iteration; after the
      first alone, an emission is possible only with a negative post-padding. */
  lemma MergeBlocksEmission(c: Config, offset: real, st: StitchState, seg: RawSegment)
    ensures var p := Pad(c, st.prevStart, st.prevEnd, Candidate(c, offset, seg).start);
            var r := Step(c, offset, st, seg);
            (p.merge2 ==> r.state.prevStart == st.prevStart && r.emits == [] && r.state.cont) &&
            (p.merge1 && !p.merge2 ==>
               r.state.prevStart == st.prevStart - c.postPadLength * c.frameShift) &&
            (p.merge1 && !p.merge2 && r.emits != [] ==> c.postPadLength * c.frameShift < 0.0) &&
            (p.merge1 && c.frameShift > 0.0 && c.postPadLength >= 0.0 ==> r.emits == [] && r.state.cont)
  {
    var p := Pad(c, st.prevStart, st.prevEnd, Candidate(c, offset, seg).start);
    if c.frameShift > 0.0 && c.postPadLength >= 0.0 {
      NonNegProduct(c.postPadLength, c.frameShift);
    }
    var p1 := PrePad(c, st.prevStart, st.prevEnd, Candidate(c, offset, seg).start);
    if p.merge1 && !p.merge2 {
      assert p1.prevEnd > 0.0 && p1.start == st.prevStart;
      assert p.prevEnd == p1.prevEnd + c.postPadLength * c.frameShift;
      assert p.start == st.prevStart - c.postPadLength * c.frameShift;
    }
  }

  lemma NonNegProduct(x: real, y: real)
    requires x >= 0.0 && y >= 0.0
    ensures x * y >= 0.0
  {
  }

  /** The trace row of an iteration carries the pending end after both paddings:
      each padding widens the end by its number of frames when the end is
      positive at that point, and leaves it as it is otherwise. With non-negative
      pad lengths this is a widening by `padLength + postPadLength` frames of a
      positive end, and an idle pending segment (end at most zero) is traced as
      it is. */
  lemma TraceRowPadded(c: Config, offset: real, st: StitchState, seg: RawSegment)
    ensures var r := Step(c, offset, st, seg);
            var e1 := if st.prevEnd > 0.0 then st.prevEnd + c.padLength * c.frameShift else st.prevEnd;
            r.rows == [Row(st.prevStart, if e1 > 0.0 then e1 + c.postPadLength * c.frameShift else e1)]
    ensures var r := Step(c, offset, st, seg);
            c.frameShift > 0.0 && c.padLength >= 0.0 && c.postPadLength >= 0.0 ==>
              r.rows == [Row(st.prevStart,
                             if st.prevEnd > 0.0
                             then st.prevEnd + (c.padLength + c.postPadLength) * c.frameShift
                             else st.prevEnd)]
  {
    var p := Pad(c, st.prevStart, st.prevEnd, Candidate(c, offset, seg).start);
    var p1 := PrePad(c, st.prevStart, st.prevEnd, Candidate(c, offset, seg).start);
    assert p1.prevEnd == if st.prevEnd > 0.0 then st.prevEnd + c.padLength * c.frameShift else st.prevEnd;
    assert p.prevEnd == if p1.prevEnd > 0.0 then p1.prevEnd + c.postPadLength * c.frameShift else p1.prevEnd;
    if c.frameShift > 0.0 && c.padLength >= 0.0 && c.postPadLength >= 0.0 {
      NonNegProduct(c.padLength, c.frameShift);
      NonNegProduct(c.postPadLength, c.frameShift);
      assert (c.padLength + c.postPadLength) * c.frameShift
          == c.padLength * c.frameShift + c.postPadLength * c.frameShift;
      if st.prevEnd > 0.0 {
        assert p.prevEnd == st.prevEnd + c.padLength * c.frameShift + c.postPadLength * c.frameShift;
      }
    }
  }

  //// Properties of the loop

  /** The loop writes exactly one trace row per raw segment, emits only segments
      of positive duration that also appear in the trace, numbers them
      consecutively after `seg_no_`, and `isrecognize_cont` ends false exactly when
      the last iteration emitted, its emission being the last trace row. */
  lemma {:induction false} LoopShape(c: Config, offset: real, st: StitchState, segs: seq<RawSegment>)
    ensures var r := Loop(c, offset, st, segs);
            |r.rows| == |segs| &&
            r.state.segNo == st.segNo + |r.emits| &&
            NumberedFrom(r.emits, st.segNo) &&
            (forall k :: 0 <= k < |r.emits| ==> r.emits[k].start < r.emits[k].end) &&
            (forall k :: 0 <= k < |r.emits| ==> Row(r.emits[k].start, r.emits[k].end) in r.rows) &&
            (segs == [] ==> r.state == st) &&
            (segs != [] ==> r.state.prevEnd == Candidate(c, offset, segs[|segs| - 1]).end) &&
            (segs != [] && !r.state.cont ==>
               r.emits != [] &&
               r.emits[|r.emits| - 1] == Emission(r.state.segNo, r.rows[|segs| - 1].start, r.rows[|segs| - 1].end))
  {
    if segs != [] {
      var init := segs[..|segs| - 1];
      LoopShape(c, offset, st, init);
      var before := Loop(c, offset, st, init);
      var last := Step(c, offset, before.state, segs[|segs| - 1]);
      var r := Loop(c, offset, st, segs);
      assert r.rows == before.rows + last.rows && r.emits == before.emits + last.emits;
      forall k | 0 <= k < |r.emits|
        ensures r.emits[k].no == st.segNo + 1 + k
        ensures r.emits[k].start < r.emits[k].end
        ensures Row(r.emits[k].start, r.emits[k].end) in r.rows
      {
        if k < |before.emits| {
          assert r.emits[k] == before.emits[k];
        } else {
          assert r.emits[k] == last.emits[0];
          assert r.rows[|r.rows| - 1] == last.rows[0];
        }
      }
    }
  }

  /** The loop's trace is a row per segment, each the pending segment before that
      iteration: the first is the pending segment the pass started from, the later
      ones start where the previous iteration left the pending start. */
  lemma {:induction false} LoopRowsArePendingSegments(c: Config, offset: real, st: StitchState,
                                                     segs: seq<RawSegment>, k: nat)
    requires k < |segs|
    ensures var r := Loop(c, offset, st, segs);
            |r.rows| == |segs| &&
            r.rows[0].start == st.prevStart &&
            r.rows[k].start == Loop(c, offset, st, segs[..k]).state.prevStart
  {
    LoopShape(c, offset, st, segs);
    var init := segs[..|segs| - 1];
    var r := Loop(c, offset, st, segs);
    var before := Loop(c, offset, st, init);
    var last := Step(c, offset, before.state, segs[|segs| - 1]);
    assert r.rows == before.rows + last.rows;
    if k == |segs| - 1 {
      assert init == segs[..k];
      if k == 0 {
        assert before == Stitched(st, [], []);
      } else {
        LoopRowsArePendingSegments(c, offset, st, init, 0);
      }
    } else {
      LoopRowsArePendingSegments(c, offset, st, init, k);
      assert init[..k] == segs[..k];
    }
  }

  //// Properties of a pass

  /** A pass whose first raw segment is at most one frame long is silence: no
      trace rows, no loop emission, the pending segment untouched and
      `isrecognize_cont` true (then only the end-of-recording line is possible). */
  lemma PassSilence(c: Config, offset: real, st: StitchState, segs: seq<RawSegment>, recording: bool)
    requires |segs| > 0 && Length(segs[0]) <= 1
    ensures var r := Pass(c, offset, st, segs, recording);
            r.rows == [] && r.state.cont &&
            r.state.prevStart == st.prevStart && r.state.prevEnd == st.prevEnd &&
            r.state.currStart == st.currStart && r.state.currEnd == st.currEnd &&
            (recording ==> r.emits == [] && r.state.segNo == st.segNo)
  {
  }

  /** A pass that stitches traces one row per raw segment, plus one more exactly
      when the final pending segment has positive duration. */
  lemma PassRows(c: Config, offset: real, st: StitchState, segs: seq<RawSegment>, recording: bool)
    requires |segs| > 0 && Length(segs[0]) > 1
    ensures var r := Pass(c, offset, st, segs, recording);
            var l := Loop(c, offset, st, segs);
            |r.rows| >= |segs| && r.rows[..|segs|] == l.rows &&
            (r.state.prevEnd - r.state.prevStart > 0.0 ==>
               |r.rows| == |segs| + 1 && r.rows[|segs|] == Row(r.state.prevStart, r.state.prevEnd)) &&
            (r.state.prevEnd - r.state.prevStart <= 0.0 ==> |r.rows| == |segs|)
  {
    LoopShape(c, offset, st, segs);
  }

  /** `seg_no_` grows by exactly one per emitted line, the lines are numbered
      consecutively, and every line except the end-of-recording one has positive
      duration. */
  lemma PassNumbering(c: Config, offset: real, st: StitchState, segs: seq<RawSegment>, recording: bool)
    requires |segs| > 0
    ensures var r := Pass(c, offset, st, segs, recording);
            r.state.segNo == st.segNo + |r.emits| &&
            NumberedFrom(r.emits, st.segNo) &&
            (recording ==> forall k :: 0 <= k < |r.emits| ==> r.emits[k].start < r.emits[k].end)
  {
    LoopShape(c, offset, st, segs);
    var r := Pass(c, offset, st, segs, recording);
    if !recording {
      var body := Pass(c, offset, st, segs, true);
      assert r.emits[..|r.emits| - 1] == body.emits;
      forall k | 0 <= k < |r.emits| ensures r.emits[k].no == st.segNo + 1 + k {
        if k < |body.emits| {
          assert r.emits[k] == body.emits[k];
        }
      }
    }
  }

  /** At the end of the recording the pass always writes one extra line, the
      pending segment as it stands after the pass, whether or not it has positive
      duration; while the recording goes on, no such line is written. */
  lemma PassEndOfRecording(c: Config, offset: real, st: StitchState, segs: seq<RawSegment>)
    requires |segs| > 0
    ensures var going := Pass(c, offset, st, segs, true);
            var ended := Pass(c, offset, st, segs, false);
            ended.emits == going.emits + [Emission(going.state.segNo + 1, going.state.prevStart, going.state.prevEnd)] &&
            ended.rows == going.rows &&
            ended.state == going.state.(segNo := going.state.segNo + 1)
  {
  }

  /** `isrecognize_cont` is false after a pass exactly when the pass stitched and
      its last iteration emitted the pending segment, which then has positive
      duration and is the last line of the loop's trace. */
  lemma PassBreak(c: Config, offset: real, st: StitchState, segs: seq<RawSegment>, recording: bool)
    requires |segs| > 0
    ensures var r := Pass(c, offset, st, segs, recording);
            var l := Loop(c, offset, st, segs);
            !r.state.cont <==>
              Length(segs[0]) > 1 &&
              Step(c, offset, Loop(c, offset, st, segs[..|segs| - 1]).state, segs[|segs| - 1]).emits != []
    ensures var r := Pass(c, offset, st, segs, recording);
            var l := Loop(c, offset, st, segs);
            !r.state.cont ==>
              |l.rows| == |segs| && l.emits != [] && l.emits[|l.emits| - 1].start < l.emits[|l.emits| - 1].end &&
              Row(l.emits[|l.emits| - 1].start, l.emits[|l.emits| - 1].end) == l.rows[|segs| - 1]
  {
    LoopShape(c, offset, st, segs);
  }

  //// Worked scenarios: 10 ms frames, no padding, no overlap, rebase offset 0

  function ScenarioConfig(maxIntersegmentLength: int): Config {
    Config(0.01, 0.0, 0.0, 0.0, 0.0, maxIntersegmentLength, 0, 1, 1, 0)
  }

  const Idle := StitchState(0.0, 0.0, 0.0, 0.0, 0, true)

  /** The first pass of both scenarios: frames 10-20 become the pending segment
      `[0.10, 0.21]` and nothing is written. */
  lemma {:induction false} ScenarioFirstPass(tolerance: int)
    ensures Pass(ScenarioConfig(tolerance), 0.0, Idle, [RawSegment(10, 20)], true) ==
            Stitched(StitchState(0.10, 0.21, 0.10, 0.21, 0, true),
                     [Row(0.0, 0.0), Row(0.10, 0.21)], [])
  {
    var c := ScenarioConfig(tolerance);
    assert [RawSegment(10, 20)][..0] == [];
    assert Candidate(c, 0.0, RawSegment(10, 20)) == Row(0.10, 0.21);
    assert PrePad(c, 0.0, 0.0, 0.10) == Padded(0.10, 0.0, false, false);
    assert Pad(c, 0.0, 0.0, 0.10) == Padded(0.10, 0.0, false, false);
  }

  /** The pending segment after the first pass of both scenarios. */
  const AfterFirst := StitchState(0.10, 0.21, 0.10, 0.21, 0, true)

  /** The one iteration of the second pass with tolerance 5: the gap of one frame
      is below the tolerance, so the candidate absorbs the pending segment. */
  lemma ScenarioMergeStep()
    ensures Step(ScenarioConfig(5), 0.0, AfterFirst, RawSegment(22, 30)) ==
            Stitched(StitchState(0.10, 0.31, 0.10, 0.31, 0, true), [Row(0.10, 0.21)], [])
  {
    var c := ScenarioConfig(5);
    assert Candidate(c, 0.0, RawSegment(22, 30)) == Row(0.22, 0.31);
    assert PrePad(c, 0.10, 0.21, 0.22) == Padded(0.10, 0.21, true, false);
    assert Pad(c, 0.10, 0.21, 0.22) == Padded(0.10, 0.21, true, true);
  }

  /** The second candidate of both scenarios: frames 22-30. */
  lemma ScenarioSecondCandidate(tolerance: int)
    ensures Candidate(ScenarioConfig(tolerance), 0.0, RawSegment(22, 30)) == Row(0.22, 0.31)
  {
  }

  /** With tolerance 0 the one-frame gap is kept: no merge test fires. */
  lemma ScenarioSplitPad()
    ensures Pad(ScenarioConfig(0), 0.10, 0.21, 0.22) == Padded(0.22, 0.21, false, false)
  {
    assert PrePad(ScenarioConfig(0), 0.10, 0.21, 0.22) == Padded(0.22, 0.21, false, false);
  }

  /** The one iteration of the second pass with tolerance 0: the candidate starts
      after the pending segment, which is finished and written as line 1. */
  lemma ScenarioSplitStep()
    ensures Step(ScenarioConfig(0), 0.0, AfterFirst, RawSegment(22, 30)) ==
            Stitched(StitchState(0.22, 0.31, 0.22, 0.31, 1, false), [Row(0.10, 0.21)],
                     [Emission(1, 0.10, 0.21)])
  {
    ScenarioSecondCandidate(0);
    ScenarioSplitPad();
    assert AfterFirst.prevStart == 0.10 && AfterFirst.prevEnd == 0.21 && AfterFirst.segNo == 0;
    StepIs(ScenarioConfig(0), 0.0, AfterFirst, RawSegment(22, 30), Row(0.22, 0.31),
           Padded(0.22, 0.21, false, false));
  }

  /** Unfolds a pass over one non-silent raw segment in terms of its one step. */
  lemma PassOfOne(c: Config, offset: real, st: StitchState, seg: RawSegment, step: Stitched)
    requires Length(seg) > 1 && step == Step(c, offset, st, seg)
    ensures Pass(c, offset, st, [seg], false).emits ==
            step.emits + [Emission(step.state.segNo + 1, step.state.prevStart, step.state.prevEnd)]
  {
    assert [seg][..0] == [];
    assert Loop(c, offset, st, [seg]) == Stitched(step.state, [] + step.rows, [] + step.emits);
    assert [] + step.emits == step.emits;
  }

  /** With a merge tolerance of five frames, a pass with frames 10-20 followed by a
      final pass with frames 22-30 writes a single line spanning both. */
  lemma ScenarioMerge()
    ensures var c := ScenarioConfig(5);
            var p1 := Pass(c, 0.0, Idle, [RawSegment(10, 20)], true);
            var p2 := Pass(c, 0.0, p1.state, [RawSegment(22, 30)], false);
            p1.emits == [] && p2.emits == [Emission(1, 0.10, 0.31)]
  {
    ScenarioFirstPass(5);
    ScenarioMergeStep();
    PassOfOne(ScenarioConfig(5), 0.0, AfterFirst, RawSegment(22, 30),
              Stitched(StitchState(0.10, 0.31, 0.10, 0.31, 0, true), [Row(0.10, 0.21)], []));
  }

  /** With no merge tolerance, the same two passes write two lines: the first
      segment when the second starts after it, the second at the end. */
  lemma ScenarioSplit()
    ensures var c := ScenarioConfig(0);
            var p1 := Pass(c, 0.0, Idle, [RawSegment(10, 20)], true);
            var p2 := Pass(c, 0.0, p1.state, [RawSegment(22, 30)], false);
            p1.emits == [] && p2.emits == [Emission(1, 0.10, 0.21), Emission(2, 0.22, 0.31)]
  {
    ScenarioFirstPass(0);
    ScenarioSplitStep();
    PassOfOne(ScenarioConfig(0), 0.0, AfterFirst, RawSegment(22, 30),
              Stitched(StitchState(0.22, 0.31, 0.22, 0.31, 1, false), [Row(0.10, 0.21)],
                       [Emission(1, 0.10, 0.21)]));
  }
}
