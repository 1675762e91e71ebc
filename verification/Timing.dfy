/**
 The timing block of a compiled clip on its way from the encoder's probe, through the worker's
 metadata and API, to the integration that validates it again. Floats are modelled as reals.
 */
module Timing {
  import opened Wrappers

  // ---------- Frame alignment ----------

  const SLACK: real := 0.000000001

  function Ceiling(x: real): (c: int)
    ensures x <= c as real < x + 1.0
  {
    -((-x).Floor)
  }

  /** Pads last whole frames: the smallest number that covers the duration, up to the slack. */
  function FrameAligned(duration: real, fps: int): real
    requires fps > 0
  {
    Ceiling(duration * fps as real - SLACK) as real / fps as real
  }

  /** Alignment overshoots by less than one frame and undershoots by at most the slack of one frame. */
  lemma AlignmentIsTight(duration: real, fps: int)
    requires fps > 0
    ensures duration - SLACK / fps as real <= FrameAligned(duration, fps) < duration + 1.0 / fps as real
    ensures duration >= 0.0 ==> FrameAligned(duration, fps) >= 0.0
  {
  }

  lemma DivideBoth(a: real, b: real, f: real)
    requires f > 0.0
    ensures a <= b ==> a / f <= b / f
    ensures a < b ==> a / f < b / f
  {
  }

  lemma WholeFramesStay(duration: real, fps: int, frames: int)
    requires fps > 0 && duration * fps as real == frames as real
    ensures FrameAligned(duration, fps) == frames as real / fps as real
  {
    assert Ceiling(frames as real - SLACK) == frames;
  }

  /** Aligning again changes nothing. */
  lemma AlignmentIsIdempotent(duration: real, fps: int)
    requires fps > 0
    ensures FrameAligned(FrameAligned(duration, fps), fps) == FrameAligned(duration, fps)
  {
    WholeFramesStay(FrameAligned(duration, fps), fps, Ceiling(duration * fps as real - SLACK));
  }

  // ---------- The producer ----------

  datatype Block<T> = Block(content: T, leadIn: T, tailOut: T, start: T, end: T)

  datatype TimingError = OutsideFile | NotANumber | Incomplete | Inconsistent

  /** `_compiled_timing_metadata`; a zero video duration counts as missing. */
  function Compiled(leadIn: real, tailOut: real, fps: int, duration: real, video: Option<real>):
      Result<Block<real>, TimingError>
    requires fps > 0
  {
    var videoDuration := if video.None? || video.value == 0.0 then duration else video.value;
    var lead, tail := FrameAligned(leadIn, fps), FrameAligned(tailOut, fps);
    var end := if tail > 0.0 then videoDuration - tail else duration;
    if end <= lead || end > duration then Err(OutsideFile)
    else Ok(Block(end - lead, lead, duration - end, lead, end))
  }

  // ---------- The worker's API ----------

  datatype Json = Null | Number(value: real) | NotFinite | Other

  predicate Measured(value: Json) {
    value.Number? && value.value >= 0.0
  }

  function Abs(x: real): real {
    if x < 0.0 then -x else x
  }

  function Max(x: real, y: real): real {
    if x < y then y else x
  }

  /** `math.isclose(a, b, abs_tol=0.05)` with its default relative tolerance. */
  predicate IsClose(a: real, b: real) {
    Abs(a - b) <= Max(SLACK * Max(Abs(a), Abs(b)), 0.05)
  }

  predicate WithinFile(b: Block<real>, total: real) {
    && b.start <= b.end <= total
    && IsClose(b.end - b.start, b.content)
    && IsClose(total - b.end, b.tailOut)
    && IsClose(b.start, b.leadIn)
  }

  function FullFile(total: real): Block<real> {
    Block(total, 0.0, 0.0, 0.0, total)
  }

  predicate AllMeasured(b: Block<Json>) {
    Measured(b.content) && Measured(b.leadIn) && Measured(b.tailOut) && Measured(b.start) && Measured(b.end)
  }

  function Numbers(b: Block<Json>): Block<real>
    requires AllMeasured(b)
  {
    Block(b.content.value, b.leadIn.value, b.tailOut.value, b.start.value, b.end.value)
  }

  function Stored(b: Block<real>): Block<Json> {
    Block(Number(b.content), Number(b.leadIn), Number(b.tailOut), Number(b.start), Number(b.end))
  }

  const ABSENT: Block<Json> := Block(Null, Null, Null, Null, Null)

  /** `_clip_from_row`: stored bounds when they check out, otherwise the full file. */
  function Served(outputAvailable: bool, outputDuration: Option<real>, metadata: Block<Json>): Block<Json> {
    if !outputAvailable || outputDuration.None? then ABSENT
    else if AllMeasured(metadata) && WithinFile(Numbers(metadata), outputDuration.value) then metadata
    else Stored(FullFile(outputDuration.value))
  }

  // ---------- The integration's validator ----------

  const TOLERANCE: real := 0.05

  predicate Consistent(b: Block<real>, total: real) {
    && b.start <= b.end <= total + TOLERANCE
    && Abs(b.start - b.leadIn) <= TOLERANCE
    && Abs(b.end - b.start - b.content) <= TOLERANCE
    && Abs(total - b.end - b.tailOut) <= TOLERANCE
  }

  function Accepted(outputDuration: Option<real>, b: Block<Json>): Result<Option<Block<real>>, TimingError> {
    if outputDuration.Some? && outputDuration.value < 0.0 then Err(NotANumber)
    else if !(forall v :: v in [b.content, b.leadIn, b.tailOut, b.start, b.end] ==> v.Null? || Measured(v))
      then Err(NotANumber)
    else if b == ABSENT then Ok(None)
    else if !AllMeasured(b) || outputDuration.None? then Err(Incomplete)
    else if !Consistent(Numbers(b), outputDuration.value) then Err(Inconsistent)
    else Ok(Some(Numbers(b)))
  }

  /** `WorkerClip.from_dict`: one pass collects the five values, then the block is checked as a whole. */
  method ParseTiming(outputDuration: Option<real>, b: Block<Json>) returns (r: Result<Option<Block<real>>, TimingError>)
    ensures r == Accepted(outputDuration, b)
  {
    if outputDuration.Some? && outputDuration.value < 0.0 {
      return Err(NotANumber);
    }
    var payload := [b.content, b.leadIn, b.tailOut, b.start, b.end];
    var timing: seq<Option<real>> := [];
    var present, missing := false, false;
    for i := 0 to |payload|
      invariant |timing| == i
      invariant forall k :: 0 <= k < i ==> payload[k].Null? || Measured(payload[k])
      invariant forall k :: 0 <= k < i ==> timing[k] == if payload[k].Null? then None else Some(payload[k].value)
      invariant present <==> exists k :: 0 <= k < i && timing[k].Some?
      invariant missing <==> exists k :: 0 <= k < i && timing[k].None?
    {
      var value := payload[i];
      if !value.Null? && !Measured(value) {
        assert value in payload;
        return Err(NotANumber);
      }
      timing := timing + [if value.Null? then None else Some(value.value)];
      if value.Null? { missing := true; } else { present := true; }
    }
    assert forall v :: v in payload ==> exists k :: 0 <= k < |payload| && payload[k] == v;
    assert payload[0] == b.content && payload[1] == b.leadIn && payload[2] == b.tailOut && payload[3] == b.start &&
      payload[4] == b.end;
    if !present {
      assert timing[0].None? && timing[1].None? && timing[2].None? && timing[3].None? && timing[4].None?;
      return Ok(None);
    }
    if missing || outputDuration.None? {
      return Err(Incomplete);
    }
    assert forall k :: 0 <= k < 5 ==> timing[k].Some?;
    var block := Block(timing[0].value, timing[1].value, timing[2].value, timing[3].value, timing[4].value);
    r := if Consistent(block, outputDuration.value) then Ok(Some(block)) else Err(Inconsistent);
  }

  // ---------- Agreement along the chain ----------

  /** What the producer writes splits the file exactly, passes the API without the fallback, and is accepted
      unchanged. */
  lemma CompiledTimingPassesTheChain(leadIn: real, tailOut: real, fps: int, duration: real, video: Option<real>)
    requires fps > 0 && leadIn >= 0.0 && tailOut >= 0.0
    ensures Compiled(leadIn, tailOut, fps, duration, video).Ok? ==>
      var b := Compiled(leadIn, tailOut, fps, duration, video).value;
      && b.leadIn + b.content + b.tailOut == duration
      && 0.0 <= b.start == FrameAligned(leadIn, fps) < b.end <= duration
      && WithinFile(b, duration)
      && Served(true, Some(duration), Stored(b)) == Stored(b)
      && Accepted(Some(duration), Served(true, Some(duration), Stored(b))) == Ok(Some(b))
  {
    AlignmentIsTight(leadIn, fps);
    if Compiled(leadIn, tailOut, fps, duration, video).Ok? {
      var b := Compiled(leadIn, tailOut, fps, duration, video).value;
      assert Numbers(Stored(b)) == b;
      assert Stored(b) != ABSENT;
    }
  }

  /** Without a measured picture, or with an empty one, the requested tail is taken off the end of the file. */
  lemma UnmeasuredPictureIsTheFile(leadIn: real, tailOut: real, fps: int, duration: real)
    requires fps > 0
    ensures Compiled(leadIn, tailOut, fps, duration, None) == Compiled(leadIn, tailOut, fps, duration, Some(duration))
    ensures Compiled(leadIn, tailOut, fps, duration, Some(0.0)) == Compiled(leadIn, tailOut, fps, duration, None)
    ensures Compiled(leadIn, tailOut, fps, duration, None).Ok? ==>
      FrameAligned(tailOut, fps) >= 0.0 ==>
        Compiled(leadIn, tailOut, fps, duration, None).value.tailOut == FrameAligned(tailOut, fps)
  {
  }

  /** Above this duration the relative tolerance of the API is wider than the client's absolute one. */
  const LIMIT: real := 49999999.95

  /** A file longer than the limit, with metadata the API serves and the client refuses. */
  lemma LongFileIsRefused(total: real) returns (metadata: Block<Json>)
    requires total > LIMIT
    ensures Served(true, Some(total), metadata) == metadata
    ensures Accepted(Some(total), metadata) == Err(Inconsistent)
  {
    var content := total / (1.0 - SLACK);
    assert content * (1.0 - SLACK) == total;
    assert content - total == SLACK * content > 0.05;
    var b := Block(content, 0.0, 0.0, 0.0, total);
    metadata := Stored(b);
    assert Numbers(metadata) == b && metadata != ABSENT;
  }

  /** The two validators agree on everything the API serves exactly for outputs up to the limit. */
  lemma ValidatorsAgree(total: real)
    requires total >= 0.0
    ensures (forall metadata :: Accepted(Some(total), Served(true, Some(total), metadata)).Ok?) <==> total <= LIMIT
  {
    if total <= LIMIT {
      forall metadata ensures Accepted(Some(total), Served(true, Some(total), metadata)).Ok? {
        var served := Served(true, Some(total), metadata);
        assert Numbers(Stored(FullFile(total))) == FullFile(total);
        var b := Numbers(served);
      }
    } else {
      var metadata := LongFileIsRefused(total);
      assert !Accepted(Some(total), Served(true, Some(total), metadata)).Ok?;
    }
  }

  /** Stored bounds that do not check out are served as if the whole file were content, which the client accepts. */
  lemma FallbackIsTheWholeFile(total: real, metadata: Block<Json>)
    requires total >= 0.0 && Served(true, Some(total), metadata) != metadata
    ensures Served(true, Some(total), metadata)
         == Block(Number(total), Number(0.0), Number(0.0), Number(0.0), Number(total))
    ensures Accepted(Some(total), Served(true, Some(total), metadata)) == Ok(Some(Block(total, 0.0, 0.0, 0.0, total)))
  {
    assert Numbers(Stored(FullFile(total))) == FullFile(total);
  }

  /**
   What the client accepts: nothing at all, or five measured numbers that split the file to within a twentieth of a
   second each; so lead, content and tail add up to the file within three twentieths. It refuses everything else.
   */
  lemma AcceptedSplitsTheFile(total: real, b: Block<Json>)
    ensures Accepted(Some(total), b) == Ok(None) <==> total >= 0.0 && b == Block(Null, Null, Null, Null, Null)
    ensures Accepted(Some(total), b).Ok? && b != Block(Null, Null, Null, Null, Null) <==>
      && total >= 0.0
      && b.content.Number? && b.leadIn.Number? && b.tailOut.Number? && b.start.Number? && b.end.Number?
      && var content, lead, tail, start, end :=
           b.content.value, b.leadIn.value, b.tailOut.value, b.start.value, b.end.value;
      && content >= 0.0 && lead >= 0.0 && tail >= 0.0 && 0.0 <= start <= end <= total + 0.05
      && -0.05 <= start - lead <= 0.05
      && -0.05 <= end - start - content <= 0.05
      && -0.05 <= total - end - tail <= 0.05
    ensures Accepted(Some(total), b).Ok? && Accepted(Some(total), b).value.Some? ==>
      var split := Accepted(Some(total), b).value.value;
      Stored(split) == b && -0.15 <= split.leadIn + split.content + split.tailOut - total <= 0.15
    ensures (forall v :: v in [b.content, b.leadIn, b.tailOut, b.start, b.end] ==> v.Null? || Measured(v)) ==>
      (exists v :: v in [b.content, b.leadIn, b.tailOut, b.start, b.end] && v.Null?) &&
      (exists v :: v in [b.content, b.leadIn, b.tailOut, b.start, b.end] && v.Number?) ==>
        Accepted(Some(total), b) == Err(if total < 0.0 then NotANumber else Incomplete)
  {
    var values := [b.content, b.leadIn, b.tailOut, b.start, b.end];
    assert values[0] == b.content && values[1] == b.leadIn && values[2] == b.tailOut && values[3] == b.start &&
      values[4] == b.end;
    assert b.content in values && b.leadIn in values && b.tailOut in values && b.start in values && b.end in values;
  }

  /** A clip without an available output carries no timing, which the client accepts as such. */
  lemma UnavailableIsAccepted(outputAvailable: bool, outputDuration: Option<real>, metadata: Block<Json>)
    requires !outputAvailable || outputDuration.None?
    requires outputDuration.Some? ==> outputDuration.value >= 0.0
    ensures Accepted(outputDuration, Served(outputAvailable, outputDuration, metadata)) == Ok(None)
  {
  }
}
