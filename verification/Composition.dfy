/**
 The timeline the encoder's filter graph composes from intro, clip, outro and black padding, against
 the length the job estimates beforehand and the content bounds it measures afterwards.
 */
module Composition {
  import opened Timing
  import opened Wrappers

  datatype Job = Job(clip: real, intro: Option<real>, outro: Option<real>, leadIn: real, tailOut: real)
  {
    predicate Valid() {
      clip >= 0.0 && (intro.Some? ==> intro.value >= 0.0) && (outro.Some? ==> outro.value >= 0.0) && leadIn >= 0.0 &&
        tailOut >= 0.0
    }
  }

  /** `transition` is 0 when the profile lists none. */
  datatype Profile = Profile(transition: real, fps: int, sampleRate: int, fadeOut: real)
  {
    predicate Valid() {
      transition >= 0.0 && fps > 0 && sampleRate > 0 && fadeOut >= 0.0
    }
  }

  /** The nodes of the filter graph that move content in time; sound is delayed by a whole number of samples. */
  datatype Node =
    | JoinIntro(intro: real, offset: real, overlap: real)
    | JoinOutro(outro: real, offset: real, overlap: real)
    | FadeOut(start: real, duration: real)
    | Pad(lead: real, delay: real, tail: real)

  /** `xfade`: the second stream starts at the offset into the first. */
  function VideoLength(clip: real, graph: seq<Node>): real {
    if graph == [] then clip else
      var before := VideoLength(clip, graph[..|graph| - 1]);
      match graph[|graph| - 1]
      case JoinIntro(_, offset, _) => offset + before
      case JoinOutro(outro, offset, _) => offset + outro
      case FadeOut(_, _) => before
      case Pad(lead, _, tail) => before + lead + tail
  }

  /** `acrossfade`: the last part of the first stream is mixed with the start of the second. */
  function AudioLength(clip: real, graph: seq<Node>): real {
    if graph == [] then clip else
      var before := AudioLength(clip, graph[..|graph| - 1]);
      match graph[|graph| - 1]
      case JoinIntro(intro, _, overlap) => intro + before - overlap
      case JoinOutro(outro, _, overlap) => before + outro - overlap
      case FadeOut(_, _) => before
      case Pad(_, delay, tail) => before + delay + tail
  }

  /** How much of the running picture a join covers with the other stream. */
  predicate Overlaps(before: real, node: Node) {
    match node
    case JoinIntro(intro, offset, overlap) => intro - offset == overlap
    case JoinOutro(_, offset, overlap) => before - offset == overlap
    case _ => true
  }

  ghost predicate EveryJoinOverlaps(clip: real, graph: seq<Node>) {
    forall k :: 0 <= k < |graph| ==> Overlaps(VideoLength(clip, graph[..k]), graph[k])
  }

  /** Rounds to the nearest integer, ties to even. */
  function Rounded(x: real): (n: int)
    ensures -0.5 <= n as real - x <= 0.5
  {
    var below := x.Floor;
    var rest := x - below as real;
    if rest < 0.5 || (rest == 0.5 && below % 2 == 0) then below else below + 1
  }

  /** Rounded to a whole number of units, of which `rate` make one. */
  function InUnits(x: real, rate: real): real
    requires rate > 0.0
  {
    Rounded(x * rate) as real / rate
  }

  lemma InUnitsIsClose(x: real, rate: real)
    requires rate > 0.0
    ensures x - 0.5 / rate <= InUnits(x, rate) <= x + 0.5 / rate
  {
    var units := Rounded(x * rate) as real;
    DivideBoth(x * rate - 0.5, units, rate);
    DivideBoth(units, x * rate + 0.5, rate);
    assert (x * rate - 0.5) / rate == x - 0.5 / rate;
    assert (x * rate + 0.5) / rate == x + 0.5 / rate;
  }

  // ---------- What the source computes ----------

  function Preceding(job: Job, p: Profile): real {
    job.clip + if job.intro.Some? then job.intro.value - p.transition else 0.0
  }

  function Content(job: Job, p: Profile): real {
    Preceding(job, p) + if job.outro.Some? then job.outro.value - p.transition else 0.0
  }

  /** The black frames before and after the content. */
  function Pads(job: Job, p: Profile): real
    requires p.Valid()
  {
    FrameAligned(job.leadIn, p.fps) + FrameAligned(job.tailOut, p.fps)
  }

  /** `_composed_duration_seconds`. */
  function Estimate(job: Job, p: Profile): real
    requires p.Valid()
  {
    Max(0.0, Content(job, p) + FrameAligned(job.leadIn, p.fps) + FrameAligned(job.tailOut, p.fps))
  }

  function IntroJoin(job: Job, p: Profile): seq<Node> {
    if job.intro.Some? then [JoinIntro(job.intro.value, Max(0.0, job.intro.value - p.transition), p.transition)] else []
  }

  function OutroJoin(job: Job, p: Profile): seq<Node> {
    if job.outro.None? then []
    else [JoinOutro(job.outro.value, Max(0.0, Preceding(job, p) - p.transition), p.transition)]
  }

  function Joins(job: Job, p: Profile): seq<Node> {
    IntroJoin(job, p) + OutroJoin(job, p)
  }

  function Finish(job: Job, p: Profile): seq<Node>
    requires p.Valid()
  {
    var lead, tail := FrameAligned(job.leadIn, p.fps), FrameAligned(job.tailOut, p.fps);
    [FadeOut(Max(0.0, Content(job, p) - p.fadeOut), p.fadeOut)] +
    if lead > 0.0 || tail > 0.0 then [Pad(lead, InUnits(lead, p.sampleRate as real), tail)] else []
  }

  /**
   The graph part of `build`: nodes are appended as the inputs are found. Every crossfade covers the picture for
   its whole duration exactly when they all fit; the picture is as long as the content and the pads, or, when the
   last crossfade does not fit, as its last stream and the pads; the sound follows the content to half a sample.
   */
  method Build(job: Job, p: Profile) returns (graph: seq<Node>)
    requires job.Valid() && p.Valid()
    ensures graph == Joins(job, p) + Finish(job, p)
    ensures EveryJoinOverlaps(job.clip, graph) <==> Fits(job, p)
    ensures VideoLength(job.clip, graph) ==
      (if LastFits(job, p) then Content(job, p) else LastStream(job)) + Pads(job, p)
    ensures Abs(AudioLength(job.clip, graph) - Content(job, p) - Pads(job, p)) <= 0.5 / p.sampleRate as real
  {
    graph := [];
    if job.intro.Some? {
      graph := graph + [JoinIntro(job.intro.value, Max(0.0, job.intro.value - p.transition), p.transition)];
    }
    if job.outro.Some? {
      var preceding := job.clip;
      if job.intro.Some? { preceding := preceding + (job.intro.value - p.transition); }
      graph := graph + [JoinOutro(job.outro.value, Max(0.0, preceding - p.transition), p.transition)];
    }
    assert graph == Joins(job, p);
    var ending := Conclude(job, p);
    graph := graph + ending;
    GraphIsComposed(job, p);
  }

  /** The fade to black at the end of the content, and the pads around it. */
  method Conclude(job: Job, p: Profile) returns (ending: seq<Node>)
    requires job.Valid() && p.Valid()
    ensures ending == Finish(job, p)
  {
    var total := job.clip;
    if job.intro.Some? { total := total + (job.intro.value - p.transition); }
    if job.outro.Some? { total := total + (job.outro.value - p.transition); }
    ending := [FadeOut(Max(0.0, total - p.fadeOut), p.fadeOut)];
    var lead, tail := FrameAligned(job.leadIn, p.fps), FrameAligned(job.tailOut, p.fps);
    if lead > 0.0 || tail > 0.0 {
      ending := ending + [Pad(lead, InUnits(lead, p.sampleRate as real), tail)];
    }
  }

  // ---------- The composed timeline ----------

  predicate IntroFits(job: Job, p: Profile) {
    job.intro.Some? ==> job.intro.value >= p.transition
  }

  /** Each crossfade has enough picture before it. */
  predicate Fits(job: Job, p: Profile) {
    IntroFits(job, p) && (job.outro.Some? ==> Preceding(job, p) >= p.transition)
  }

  function LastStream(job: Job): real {
    if job.outro.Some? then job.outro.value else job.clip
  }

  /** The last crossfade alone decides the length: an outro is placed by arithmetic, not by the picture before it. */
  predicate LastFits(job: Job, p: Profile) {
    if job.outro.Some? then Preceding(job, p) >= p.transition else IntroFits(job, p)
  }

  lemma VideoAppended(clip: real, graph: seq<Node>, node: Node)
    ensures VideoLength(clip, graph + [node]) ==
      match node
      case JoinIntro(_, offset, _) => offset + VideoLength(clip, graph)
      case JoinOutro(outro, offset, _) => offset + outro
      case FadeOut(_, _) => VideoLength(clip, graph)
      case Pad(lead, _, tail) => VideoLength(clip, graph) + lead + tail
  {
  }

  lemma AudioAppended(clip: real, graph: seq<Node>, node: Node)
    ensures AudioLength(clip, graph + [node]) ==
      match node
      case JoinIntro(intro, _, overlap) => intro + AudioLength(clip, graph) - overlap
      case JoinOutro(outro, _, overlap) => AudioLength(clip, graph) + outro - overlap
      case FadeOut(_, _) => AudioLength(clip, graph)
      case Pad(_, delay, tail) => AudioLength(clip, graph) + delay + tail
  {
  }

  lemma OverlapsAppended(clip: real, graph: seq<Node>, node: Node)
    ensures EveryJoinOverlaps(clip, graph + [node]) <==>
      EveryJoinOverlaps(clip, graph) && Overlaps(VideoLength(clip, graph), node)
  {
    var more := graph + [node];
    assert more[..|graph|] == graph && more[|graph|] == node;
    assert forall k :: 0 <= k < |graph| ==> more[..k] == graph[..k] && more[k] == graph[k];
  }

  lemma JoinedSound(job: Job, p: Profile)
    ensures AudioLength(job.clip, Joins(job, p)) == Content(job, p)
  {
    var front := IntroJoin(job, p);
    if job.intro.Some? {
      AudioAppended(job.clip, [], front[0]);
      assert [] + [front[0]] == front;
    }
    if job.outro.Some? {
      AudioAppended(job.clip, front, OutroJoin(job, p)[0]);
      assert OutroJoin(job, p) == [OutroJoin(job, p)[0]];
    } else {
      assert Joins(job, p) == front;
    }
  }

  /** Every crossfade covers the picture before it for exactly its duration when, and only when, there is enough
      picture. */
  lemma CrossfadesOverlapIffFits(job: Job, p: Profile)
    requires job.Valid() && p.Valid()
    ensures EveryJoinOverlaps(job.clip, Joins(job, p)) <==> Fits(job, p)
  {
    var front := IntroJoin(job, p);
    assert EveryJoinOverlaps(job.clip, []);
    if job.intro.Some? {
      OverlapsAppended(job.clip, [], front[0]);
      assert [] + [front[0]] == front;
    }
    if job.outro.Some? {
      OverlapsAppended(job.clip, front, OutroJoin(job, p)[0]);
      assert OutroJoin(job, p) == [OutroJoin(job, p)[0]];
    } else {
      assert Joins(job, p) == front;
    }
  }

  lemma FinishedPicture(job: Job, p: Profile)
    requires job.Valid() && p.Valid()
    ensures VideoLength(job.clip, Joins(job, p) + Finish(job, p))
         == VideoLength(job.clip, Joins(job, p)) + FrameAligned(job.leadIn, p.fps) + FrameAligned(job.tailOut, p.fps)
  {
    AlignmentIsTight(job.leadIn, p.fps);
    AlignmentIsTight(job.tailOut, p.fps);
    var joins, finish := Joins(job, p), Finish(job, p);
    VideoAppended(job.clip, joins, finish[0]);
    if |finish| == 1 {
      assert finish == [finish[0]];
    } else {
      VideoAppended(job.clip, joins + [finish[0]], finish[1]);
      assert joins + finish == joins + [finish[0]] + [finish[1]];
    }
  }

  lemma FinishedSound(job: Job, p: Profile)
    requires job.Valid() && p.Valid()
    ensures var error := AudioLength(job.clip, Joins(job, p) + Finish(job, p))
          - (AudioLength(job.clip, Joins(job, p)) + FrameAligned(job.leadIn, p.fps) + FrameAligned(job.tailOut, p.fps));
      -(0.5 / p.sampleRate as real) <= error <= 0.5 / p.sampleRate as real
  {
    AlignmentIsTight(job.leadIn, p.fps);
    AlignmentIsTight(job.tailOut, p.fps);
    InUnitsIsClose(FrameAligned(job.leadIn, p.fps), p.sampleRate as real);
    var joins, finish := Joins(job, p), Finish(job, p);
    AudioAppended(job.clip, joins, finish[0]);
    if |finish| == 1 {
      assert finish == [finish[0]];
    } else {
      AudioAppended(job.clip, joins + [finish[0]], finish[1]);
      assert joins + finish == joins + [finish[0]] + [finish[1]];
    }
  }

  lemma OverlapsToTheEnd(job: Job, p: Profile)
    requires job.Valid() && p.Valid()
    ensures EveryJoinOverlaps(job.clip, Joins(job, p) + Finish(job, p)) <==> EveryJoinOverlaps(job.clip, Joins(job, p))
  {
    var joins, finish := Joins(job, p), Finish(job, p);
    OverlapsAppended(job.clip, joins, finish[0]);
    if |finish| == 1 {
      assert finish == [finish[0]];
    } else {
      OverlapsAppended(job.clip, joins + [finish[0]], finish[1]);
      assert joins + finish == joins + [finish[0]] + [finish[1]];
    }
  }

  lemma GraphIsComposed(job: Job, p: Profile)
    requires job.Valid() && p.Valid()
    ensures var graph := Joins(job, p) + Finish(job, p);
      && (EveryJoinOverlaps(job.clip, graph) <==> Fits(job, p))
      && VideoLength(job.clip, graph) == (if LastFits(job, p) then Content(job, p) else LastStream(job)) + Pads(job, p)
      && Abs(AudioLength(job.clip, graph) - Content(job, p) - Pads(job, p)) <= 0.5 / p.sampleRate as real
  {
    CrossfadesOverlapIffFits(job, p);
    OverlapsToTheEnd(job, p);
    FinishedPicture(job, p);
    JoinedSound(job, p);
    FinishedSound(job, p);
  }

  /**
   The estimate that sets the timeout is the length of the composed picture exactly when its last crossfade
   fits, or there is nothing at all to show; otherwise it is too short.
   */
  lemma EstimateIsExactIff(job: Job, p: Profile)
    requires job.Valid() && p.Valid()
    ensures Estimate(job, p) == VideoLength(job.clip, Joins(job, p) + Finish(job, p)) <==>
      LastFits(job, p) ||
        (LastStream(job) == 0.0 && FrameAligned(job.leadIn, p.fps) == 0.0 && FrameAligned(job.tailOut, p.fps) == 0.0)
    ensures Estimate(job, p) <= VideoLength(job.clip, Joins(job, p) + Finish(job, p))
  {
    AlignmentIsTight(job.leadIn, p.fps);
    AlignmentIsTight(job.tailOut, p.fps);
    FinishedPicture(job, p);
  }

  /** Picture and sound end within half a sample of each other when the last crossfade fits. */
  lemma SoundEndsWithPicture(job: Job, p: Profile)
    requires job.Valid() && p.Valid() && LastFits(job, p)
    ensures var graph := Joins(job, p) + Finish(job, p);
      Abs(AudioLength(job.clip, graph) - VideoLength(job.clip, graph)) <= 0.5 / p.sampleRate as real
  {
    JoinedSound(job, p);
    FinishedPicture(job, p);
    FinishedSound(job, p);
  }

  /** The fade to black ends with the content exactly when the content is at least as long as the fade. */
  lemma FadeEndsWithContent(job: Job, p: Profile)
    requires job.Valid() && p.Valid()
    ensures var fade := Finish(job, p)[0];
      fade.FadeOut? && (fade.start + fade.duration == Content(job, p) <==> Content(job, p) >= p.fadeOut)
  {
  }

  /**
   What is measured on an encoded file whose picture is as composed: with a tail, the content ends where the composed
   content ends, however much longer than the picture the file is; without one, it ends with the file.
   */
  lemma MeasuredContentIsComposed(job: Job, p: Profile, file: real)
    requires job.Valid() && p.Valid() && LastFits(job, p)
    ensures var picture := VideoLength(job.clip, Joins(job, p) + Finish(job, p));
      var lead, tail := FrameAligned(job.leadIn, p.fps), FrameAligned(job.tailOut, p.fps);
      var end := if tail > 0.0 then lead + Content(job, p) else file;
      && (file == picture ==> end == lead + Content(job, p))
      && Compiled(job.leadIn, job.tailOut, p.fps, file, Some(picture)) ==
           if end <= lead || end > file then Err(OutsideFile)
           else Ok(Timing.Block.Block(end - lead, lead, file - end, lead, end))
  {
    AlignmentIsTight(job.leadIn, p.fps);
    AlignmentIsTight(job.tailOut, p.fps);
    FinishedPicture(job, p);
  }
}
