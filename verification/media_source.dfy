/** The media source the Kinesis Video producer drives: a configuration fixed
    at construction and at most one runner, which owns the GStreamer pipeline,
    the codec-private-data latch and the frame counter. The lifecycle state is
    not stored anywhere; it is read off whether a runner exists and whether its
    pipeline reports playing. */
module MediaSource {
  import opened Wrappers
  import opened JavaNum
  import opened StreamDescriptor
  import opened SampleAdapter

  /** The producer's `MediaSourceState` values the source reports. */
  datatype MediaSourceState = Ready | Running | Stopped

  /** The producer's `MediaSourceSink` handed to `initialize`, by identity only. */
  datatype SinkRef = SinkRef(id: nat)

  /** A runner: the sink it feeds, whether its pipeline currently reports
      playing (decided by GStreamer, not by the source), and the adapter state
      its new-sample callback owns. */
  datatype Runner = Runner(sink: SinkRef, playing: bool, adapter: AdapterState)

  /** The whole media source. */
  datatype Source = Source(config: Config, runner: Option<Runner>)

  /** The exceptions the lifecycle operations throw:
      `IllegalStateException("Already initialized")`,
      `IllegalStateException("Elements could not be linked")` from building the pipeline,
      `IllegalStateException("Started before initialized")` and
      `RuntimeException("Unable to set pipeline to playing state")`. */
  datatype Failure = AlreadyInitialized | ElementsNotLinked | StartedBeforeInitialized | UnableToPlay

  /** The result of a lifecycle operation: the source afterwards and the
      exception thrown, if any. */
  datatype Step = Step(next: Source, thrown: Option<Failure>)

  /** What `pipeline.play()` returned: `FAILURE`, or any other state-change
      return together with whether the pipeline now reports playing. */
  datatype PlayResult = PlayFailure | PlayAccepted(nowPlaying: bool)

  /** The constructor. The tags are copied, so later changes to the caller's
      array do not reach the source. */
  function New(rtspUri: string, retentionPeriod: Duration, tags: seq<Tag>): (s: Source)
    ensures State(s) == Stopped
    ensures s.config == Config(rtspUri, retentionPeriod, tags)
  {
    Source(Config(rtspUri, retentionPeriod, tags), None)
  }

  /** `getMediaSourceState()`. */
  function State(s: Source): (st: MediaSourceState)
    ensures st == Running <==> s.runner.Some? && s.runner.value.playing
    ensures st == Ready <==> s.runner.Some? && !s.runner.value.playing
    ensures st == Stopped <==> s.runner.None?
  {
    if s.runner.Some? && s.runner.value.playing then Running
    else if s.runner.Some? then Ready
    else Stopped
  }

  /** `isStopped()`. */
  predicate IsStopped(s: Source)
    ensures IsStopped(s) <==> State(s) == Stopped
    ensures IsStopped(s) <==> s.runner.None?
  {
    State(s) == Stopped
  }

  /** `initialize(sink)`. `linked` is whether building the pipeline succeeded;
      a new pipeline is not playing. */
  function Initialize(s: Source, sink: SinkRef, linked: bool): (o: Step)
    ensures o.thrown == Some(AlreadyInitialized) <==> State(s) != Stopped
    ensures o.thrown == Some(ElementsNotLinked) <==> State(s) == Stopped && !linked
    ensures o.thrown.Some? ==> o.next == s
    ensures o.thrown.None? ==>
              && State(o.next) == Ready
              && o.next.runner == Some(Runner(sink, false, Fresh))
              && o.next.config == s.config
  {
    if s.runner.Some? then Step(s, Some(AlreadyInitialized))
    else if !linked then Step(s, Some(ElementsNotLinked))
    else Step(s.(runner := Some(Runner(sink, false, Fresh))), None)
  }

  /** `start()`, up to the point where it enters GStreamer's main loop. */
  function Start(s: Source, play: PlayResult): (o: Step)
    ensures o.thrown == Some(StartedBeforeInitialized) <==> State(s) == Stopped
    ensures o.thrown == Some(UnableToPlay) <==> State(s) != Stopped && play.PlayFailure?
    ensures o.thrown.Some? ==> o.next == s
    ensures o.thrown.None? ==>
              && o.next.config == s.config
              && o.next.runner.Some?
              && o.next.runner.value.sink == s.runner.value.sink
              && o.next.runner.value.adapter == s.runner.value.adapter
              && (State(o.next) == Running <==> play.nowPlaying)
  {
    match s.runner
    case None => Step(s, Some(StartedBeforeInitialized))
    case Some(r) =>
      match play
      case PlayFailure => Step(s, Some(UnableToPlay))
      case PlayAccepted(nowPlaying) => Step(s.(runner := Some(r.(playing := nowPlaying))), None)
  }

  /** `stop()`: tear the runner down if there is one. */
  function Stop(s: Source): (r: Source)
    ensures State(r) == Stopped
    ensures r.config == s.config
    ensures State(s) == Stopped ==> r == s
  {
    if s.runner.None? then s else s.(runner := None)
  }

  /** `free()`. */
  function Free(s: Source): (r: Source)
    ensures State(r) == Stopped
    ensures r.config == s.config
    ensures State(s) == Stopped ==> r == s
  {
    Stop(s)
  }

  /** The pipeline changing state by itself: reaching playing after an
      asynchronous start, or leaving it after a bus error. */
  function PipelineReports(s: Source, playing: bool): (r: Source)
    ensures r.config == s.config
    ensures State(s) == Stopped <==> State(r) == Stopped
    ensures State(r) == Running <==> State(s) != Stopped && playing
    ensures r.runner.Some? ==> r.runner.value.adapter == s.runner.value.adapter
  {
    match s.runner
    case None => s
    case Some(rn) => s.(runner := Some(rn.(playing := playing)))
  }

  /** The source after one command, and what the runner's callback sent
      during it (nothing, for a lifecycle call). */
  datatype Outcome = Outcome(next: Source, events: seq<Event>)

  /** The appsink handing a sample to the current runner's callback. Without a
      runner there is no pipeline and so no callback. */
  function Deliver(s: Source, d: Delivery): (o: Outcome)
    ensures s.runner.None? ==> o.next == s && o.events == []
    ensures s.runner.Some? ==>
              && o.next.config == s.config
              && o.next.runner.Some?
              && o.next.runner.value.sink == s.runner.value.sink
              && o.next.runner.value.playing == s.runner.value.playing
              && o.next.runner.value.adapter == OnNewSample(s.runner.value.adapter, d).next
              && o.events == OnNewSample(s.runner.value.adapter, d).events
    ensures State(o.next) == State(s)
  {
    match s.runner
    case None => Outcome(s, [])
    case Some(rn) =>
      var c := OnNewSample(rn.adapter, d);
      Outcome(s.(runner := Some(rn.(adapter := c.next))), c.events)
  }

  // ----- Lifecycle properties -----

  /** `free()` is `stop()`. */
  lemma FreeIsStop(s: Source)
    ensures Free(s) == Stop(s)
  {
  }

  /** `stop()` is idempotent. */
  lemma StopIdempotent(s: Source)
    ensures Stop(Stop(s)) == Stop(s)
  {
  }

  /** A pipeline that stops playing on its own, for example after a bus error,
      leaves the source READY rather than STOPPED, and `initialize` then still
      refuses; only `stop()` clears the way for a new runner, whose counter and
      latch start afresh. */
  lemma PipelineErrorNeedsStop(s: Source, sink: SinkRef)
    requires State(s) == Running
    ensures State(PipelineReports(s, false)) == Ready
    ensures Initialize(PipelineReports(s, false), sink, true).thrown == Some(AlreadyInitialized)
    ensures var o := Initialize(Stop(PipelineReports(s, false)), sink, true);
            o.thrown.None? && o.next.runner.value.adapter == Fresh
  {
  }

  // ----- Sequences of calls -----

  /** A call on the source, or something the pipeline does to it. */
  datatype Command =
    | InitializeCall(sink: SinkRef, linked: bool)
    | StartCall(play: PlayResult)
    | StopCall
    | FreeCall
    | PipelineChange(playing: bool)
    | NewSample(delivery: Delivery)

  /** The source after a sequence of commands, and what its callbacks sent. */
  datatype Trace = Trace(final: Source, events: seq<Event>)

  /** One command; a thrown exception leaves the source as it was. */
  function Apply(s: Source, cmd: Command): Outcome
  {
    match cmd
    case InitializeCall(sink, linked) => Outcome(Initialize(s, sink, linked).next, [])
    case StartCall(play) => Outcome(Start(s, play).next, [])
    case StopCall => Outcome(Stop(s), [])
    case FreeCall => Outcome(Free(s), [])
    case PipelineChange(playing) => Outcome(PipelineReports(s, playing), [])
    case NewSample(d) => Deliver(s, d)
  }

  /** The commands applied in order. */
  function Exec(s: Source, cmds: seq<Command>): (t: Trace)
    decreases |cmds|
  {
    if |cmds| == 0 then Trace(s, [])
    else
      var o := Apply(s, cmds[0]);
      var rest := Exec(o.next, cmds[1..]);
      Trace(rest.final, o.events + rest.events)
  }

  /** No lifecycle call and no sample changes the configuration, so the stream
      descriptor is the same whatever state the source is in. */
  lemma {:induction false} DescriptorStableAcrossLifecycle(s: Source, cmds: seq<Command>, streamName: string)
    ensures Exec(s, cmds).final.config == s.config
    ensures GetStreamInfo(Exec(s, cmds).final.config, streamName) == GetStreamInfo(s.config, streamName)
    decreases |cmds|
  {
    if |cmds| > 0 {
      DescriptorStableAcrossLifecycle(Apply(s, cmds[0]).next, cmds[1..], streamName);
    }
  }

  /** The tags the producer sees are the ones given at construction, at any
      point in the source's life. */
  lemma TagsFixedAtConstruction(rtspUri: string, retentionPeriod: Duration, tags: seq<Tag>,
                                cmds: seq<Command>, streamName: string)
    requires MinInt64 <= retentionPeriod.nanos <= MaxInt64
    ensures var info := GetStreamInfo(Exec(New(rtspUri, retentionPeriod, tags), cmds).final.config, streamName);
            info.Ok? && info.value.tags == tags
  {
    DescriptorStableAcrossLifecycle(New(rtspUri, retentionPeriod, tags), cmds, streamName);
  }

  /** Whether a command can end the current runner's life. */
  predicate EndsRunner(cmd: Command)
  {
    cmd.StopCall? || cmd.FreeCall?
  }

  /** While nothing stops it, a runner survives every other call, including a
      refused `initialize`, a failed or repeated `start` and its pipeline
      leaving the playing state, and the frames its callback sends are numbered
      on from its counter without a gap or a restart. */
  lemma {:induction false} SessionFrameIndices(s: Source, cmds: seq<Command>)
    requires s.runner.Some?
    requires forall i :: 0 <= i < |cmds| ==> !EndsRunner(cmds[i])
    ensures var t := Exec(s, cmds);
            var fs := Frames(t.events);
            && t.final.runner.Some?
            && t.final.runner.value.sink == s.runner.value.sink
            && (forall k :: 0 <= k < |fs| ==> fs[k].index == Advance(s.runner.value.adapter.frameIndex, k))
            && t.final.runner.value.adapter.frameIndex == Advance(s.runner.value.adapter.frameIndex, |fs|)
    decreases |cmds|
  {
    if |cmds| > 0 {
      var o := Apply(s, cmds[0]);
      var rest := Exec(o.next, cmds[1..]);
      assert Exec(s, cmds).events == o.events + rest.events;
      var i := s.runner.value.adapter.frameIndex;
      ApplyKeepsRunner(s, cmds[0]);
      SessionFrameIndices(o.next, cmds[1..]);
      FramesAppend(o.events, rest.events);
      PrependFrame(i, o.next.runner.value.adapter.frameIndex, Frames(o.events), Frames(rest.events));
    }
  }

  /** One command other than `stop`/`free` keeps the runner and its sink, and
      sends either no frame or one frame carrying the current index, which is
      then consumed. */
  lemma ApplyKeepsRunner(s: Source, cmd: Command)
    requires s.runner.Some?
    requires !EndsRunner(cmd)
    ensures var o := Apply(s, cmd);
            var i := s.runner.value.adapter.frameIndex;
            var fs := Frames(o.events);
            && o.next.runner.Some?
            && o.next.runner.value.sink == s.runner.value.sink
            && ((fs == [] && o.next.runner.value.adapter.frameIndex == i)
                || (|fs| == 1 && fs[0].index == i && o.next.runner.value.adapter.frameIndex == PostIncrement(i)))
  {
    if cmd.NewSample? {
      CallbackProjections(s.runner.value.adapter, cmd.delivery);
    }
  }
}
