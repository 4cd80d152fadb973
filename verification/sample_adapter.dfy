/** The appsink's new-sample callback: one pulled sample in, at most one
    codec-private-data call and at most one frame out to the producer's sink,
    and a flow return back to GStreamer. Everything the callback reads from or
    writes to outside the runner is a value here, and the sink is an oracle
    whose accept/reject answer for each call comes with the sample. */
module SampleAdapter {
  import opened Wrappers
  import opened JavaNum

  /** A non-negative nanosecond count that fits in a `long`. */
  type Nanos = x: int | 0 <= x <= MaxInt64

  /** A buffer timestamp: valid, with its nanoseconds, or GStreamer's "none",
      whose numeric `toNanos()` reading is left to the framework. */
  datatype ClockTime = Valid(nanos: Nanos) | Invalid(raw: Int64)

  /** What `toNanos()` reports for a timestamp. */
  function ReadNanos(t: ClockTime): Int64
  {
    match t
    case Valid(n) => n
    case Invalid(raw) => raw
  }

  /** A pulled sample: the buffer's two timestamps and DELTA_UNIT flag, the
      `codec_data` values of the first caps structure (`None` when reading the
      field yields no list), and the buffer's bytes. */
  datatype Sample = Sample(
    pts: ClockTime,
    dts: ClockTime,
    deltaUnit: bool,
    codecData: Option<seq<seq<byte>>>,
    payload: seq<byte>)

  /** The producer's `FrameFlags` values the callback chooses between. */
  datatype FrameFlags = FrameFlagNone | FrameFlagKeyFrame

  /** A `KinesisVideoFrame`; the three times are in 100-ns units. */
  datatype Frame = Frame(
    index: Int32,
    flags: FrameFlags,
    decodeTs: Int64,
    presentationTs: Int64,
    duration: Int64,
    data: seq<byte>)

  /** What the callback does that the outside world sees, in order: a call to
      `onCodecPrivateData`, a call to `onFrame`, and the release of the sample
      (buffer unmapped and sample disposed). */
  datatype Event = CodecPrivateData(bytes: seq<byte>) | OnFrame(frame: Frame) | Released

  /** How the callback ends: `FlowReturn.OK`, `FlowReturn.ERROR`, or a
      `RuntimeException` escaping from a rejected codec-private-data call. */
  datatype Flow = FlowOk | FlowError | Escaped

  /** The sink's answer to each call it may receive during one callback. */
  datatype SinkReply = SinkReply(acceptsCodecPrivateData: bool, acceptsFrame: bool)

  /** One invocation of the callback: the sample pulled and the sink's answers. */
  datatype Delivery = Delivery(sample: Sample, reply: SinkReply)

  /** The mutable part of a runner the callback owns: the codec-private-data
      latch and the next frame index. */
  datatype AdapterState = AdapterState(codecPrivateDataSet: bool, frameIndex: Int32)

  /** The adapter state of a freshly constructed runner. */
  const Fresh: AdapterState := AdapterState(false, 0)

  /** The result of one callback. */
  datatype Callback = Callback(next: AdapterState, events: seq<Event>, flow: Flow)

  /** Every frame is announced as lasting 20 ms. */
  const FrameDuration: Duration := OfMillis(20)

  /** The first `codec_data` value of the sample's caps, if there is one. */
  function FirstCodecData(s: Sample): (r: Option<seq<byte>>)
    ensures r.Some? <==> s.codecData.Some? && |s.codecData.value| > 0
    ensures r.Some? ==> r.value == s.codecData.value[0]
  {
    match s.codecData
    case None => None
    case Some(values) => if |values| == 0 then None else Some(values[0])
  }

  /** The buffer's (decode, presentation) timestamps after the fix-up: a valid
      presentation time is copied over the decode time, otherwise the decode
      time is copied over the presentation time. */
  function FixTimestamps(s: Sample): (ClockTime, ClockTime)
  {
    if s.pts.Valid? then (s.pts, s.pts) else (s.dts, s.dts)
  }

  /** The frame the callback builds from a sample with the given index. */
  function BuildFrame(index: Int32, s: Sample): (f: Frame)
    ensures f.index == index && f.data == s.payload
    ensures f.decodeTs == f.presentationTs
    ensures s.pts.Valid? ==> f.presentationTs == s.pts.nanos / 100
    ensures !s.pts.Valid? && s.dts.Valid? ==> f.presentationTs == s.dts.nanos / 100
    ensures !s.pts.Valid? && !s.dts.Valid? ==> f.presentationTs == JavaDivBy100(s.dts.raw)
    ensures f.flags == FrameFlagKeyFrame <==> !s.deltaUnit
    ensures f.flags == FrameFlagNone <==> s.deltaUnit
    ensures f.duration * 100 == FrameDuration.nanos
  {
    var (dts, pts) := FixTimestamps(s);
    Frame(
      index,
      if s.deltaUnit then FrameFlagNone else FrameFlagKeyFrame,
      JavaDivBy100(ReadNanos(dts)),
      JavaDivBy100(ReadNanos(pts)),
      HundredNanos(FrameDuration),
      s.payload)
  }

  /** Whether this callback will call `onCodecPrivateData`. */
  predicate SendsCodecPrivateData(st: AdapterState, s: Sample)
  {
    !st.codecPrivateDataSet && FirstCodecData(s).Some?
  }

  /** One invocation of the new-sample callback on a runner in state `st`. */
  function OnNewSample(st: AdapterState, d: Delivery): (c: Callback)
    // The latch: set by this callback exactly when it found codec_data, even
    // when the sink then rejects it; never cleared.
    ensures c.next.codecPrivateDataSet <==> st.codecPrivateDataSet || FirstCodecData(d.sample).Some?
    // Codec private data goes out first, once, and is the first codec_data value.
    ensures SendsCodecPrivateData(st, d.sample) ==>
              |c.events| > 0 && c.events[0] == CodecPrivateData(FirstCodecData(d.sample).value)
    ensures forall i :: 0 <= i < |c.events| && c.events[i].CodecPrivateData? ==>
              i == 0 && SendsCodecPrivateData(st, d.sample)
    // Only a rejected codec-private-data call escapes; it leaves the index alone
    // and neither builds a frame nor releases the sample.
    ensures c.flow == Escaped <==> SendsCodecPrivateData(st, d.sample) && !d.reply.acceptsCodecPrivateData
    ensures c.flow == Escaped ==>
              c.next.frameIndex == st.frameIndex && |c.events| == 1
    // Otherwise exactly one frame, with the current index, then the release.
    ensures c.flow != Escaped ==>
              && |c.events| >= 2
              && c.events[|c.events| - 2] == OnFrame(BuildFrame(st.frameIndex, d.sample))
              && c.events[|c.events| - 1] == Released
              && c.next.frameIndex == PostIncrement(st.frameIndex)
    // The flow return reports the sink's answer to the frame.
    ensures c.flow == FlowOk <==> c.flow != Escaped && d.reply.acceptsFrame
    ensures c.flow == FlowError <==> c.flow != Escaped && !d.reply.acceptsFrame
  {
    var sends := SendsCodecPrivateData(st, d.sample);
    var latched := st.(codecPrivateDataSet := st.codecPrivateDataSet || sends);
    var announced := if sends then [CodecPrivateData(FirstCodecData(d.sample).value)] else [];
    if sends && !d.reply.acceptsCodecPrivateData then
      Callback(latched, announced, Escaped)
    else
      var frame := BuildFrame(st.frameIndex, d.sample);
      Callback(
        latched.(frameIndex := PostIncrement(st.frameIndex)),
        announced + [OnFrame(frame), Released],
        if d.reply.acceptsFrame then FlowOk else FlowError)
  }

  /** A callback that sends no codec private data, because the latch is set or
      the sample carries none, sends exactly its frame, releases the sample
      and returns the sink's answer. */
  lemma QuietCallback(st: AdapterState, d: Delivery)
    requires !SendsCodecPrivateData(st, d.sample)
    ensures OnNewSample(st, d) == Callback(
              st.(frameIndex := PostIncrement(st.frameIndex)),
              [OnFrame(BuildFrame(st.frameIndex, d.sample)), Released],
              if d.reply.acceptsFrame then FlowOk else FlowError)
  {
  }

  // ----- Traces of several callbacks on one runner -----

  /** The frames handed to the sink, in order. */
  function Frames(events: seq<Event>): seq<Frame>
  {
    if |events| == 0 then []
    else (if events[0].OnFrame? then [events[0].frame] else []) + Frames(events[1..])
  }

  /** The codec private data handed to the sink, in order. */
  function CodecPrivateDataSent(events: seq<Event>): seq<seq<byte>>
  {
    if |events| == 0 then []
    else (if events[0].CodecPrivateData? then [events[0].bytes] else []) + CodecPrivateDataSent(events[1..])
  }

  /** How many samples were released. */
  function Releases(events: seq<Event>): nat
  {
    if |events| == 0 then 0
    else (if events[0] == Released then 1 else 0) + Releases(events[1..])
  }

  /** How many frames precede the first codec-private-data call (all of them
      when there is none). */
  function FramesBeforeCodecPrivateData(events: seq<Event>): nat
  {
    if |events| == 0 then 0
    else if events[0].CodecPrivateData? then 0
    else (if events[0].OnFrame? then 1 else 0) + FramesBeforeCodecPrivateData(events[1..])
  }

  /** How many callbacks ran to their flow return rather than escaping. */
  function Completed(flows: seq<Flow>): nat
  {
    if |flows| == 0 then 0
    else (if flows[0] != Escaped then 1 else 0) + Completed(flows[1..])
  }

  /** The first `codec_data` value carried by any of the samples. */
  function FirstCodecDataIn(ds: seq<Delivery>): Option<seq<byte>>
  {
    if |ds| == 0 then None
    else if FirstCodecData(ds[0].sample).Some? then FirstCodecData(ds[0].sample)
    else FirstCodecDataIn(ds[1..])
  }

  /** The position of the first sample that carries `codec_data`, or the
      number of samples when none does. */
  function CodecDataPosition(ds: seq<Delivery>): nat
  {
    if |ds| == 0 then 0
    else if FirstCodecData(ds[0].sample).Some? then 0
    else 1 + CodecDataPosition(ds[1..])
  }

  /** The outcome of running the callback on a sequence of samples. */
  datatype RunResult = RunResult(final: AdapterState, events: seq<Event>, flows: seq<Flow>)

  /** The callback invoked on each delivery in turn, the runner's state
      threaded through. */
  function Run(st: AdapterState, ds: seq<Delivery>): (r: RunResult)
    ensures |r.flows| == |ds|
    decreases |ds|
  {
    if |ds| == 0 then RunResult(st, [], [])
    else
      var c := OnNewSample(st, ds[0]);
      var rest := Run(c.next, ds[1..]);
      RunResult(rest.final, c.events + rest.events, [c.flow] + rest.flows)
  }

  // ----- Distribution of the trace projections over concatenation -----

  lemma {:induction false} FramesAppend(a: seq<Event>, b: seq<Event>)
    ensures Frames(a + b) == Frames(a) + Frames(b)
  {
    if |a| > 0 {
      FramesAppend(a[1..], b);
      assert (a + b)[1..] == a[1..] + b;
    } else {
      assert a + b == b;
    }
  }

  lemma {:induction false} CodecPrivateDataSentAppend(a: seq<Event>, b: seq<Event>)
    ensures CodecPrivateDataSent(a + b) == CodecPrivateDataSent(a) + CodecPrivateDataSent(b)
  {
    if |a| > 0 {
      CodecPrivateDataSentAppend(a[1..], b);
      assert (a + b)[1..] == a[1..] + b;
    } else {
      assert a + b == b;
    }
  }

  lemma {:induction false} ReleasesAppend(a: seq<Event>, b: seq<Event>)
    ensures Releases(a + b) == Releases(a) + Releases(b)
  {
    if |a| > 0 {
      ReleasesAppend(a[1..], b);
      assert (a + b)[1..] == a[1..] + b;
    } else {
      assert a + b == b;
    }
  }

  lemma {:induction false} FramesBeforeCodecPrivateDataAppend(a: seq<Event>, b: seq<Event>)
    ensures CodecPrivateDataSent(a) == [] ==>
              FramesBeforeCodecPrivateData(a + b) == |Frames(a)| + FramesBeforeCodecPrivateData(b)
    ensures CodecPrivateDataSent(a) != [] ==>
              FramesBeforeCodecPrivateData(a + b) == FramesBeforeCodecPrivateData(a)
  {
    if |a| > 0 {
      FramesBeforeCodecPrivateDataAppend(a[1..], b);
      assert (a + b)[1..] == a[1..] + b;
    } else {
      assert a + b == b;
    }
  }

  /** The projections of a one-event trace. */
  lemma SingletonProjections(e: Event)
    ensures Frames([e]) == (if e.OnFrame? then [e.frame] else [])
    ensures CodecPrivateDataSent([e]) == (if e.CodecPrivateData? then [e.bytes] else [])
    ensures Releases([e]) == (if e == Released then 1 else 0)
    ensures FramesBeforeCodecPrivateData([e]) == (if e.OnFrame? then 1 else 0)
  {
    assert [e][1..] == [];
  }

  /** The projections of a single callback's events. */
  lemma CallbackProjections(st: AdapterState, d: Delivery)
    ensures var c := OnNewSample(st, d);
            && Frames(c.events) == (if c.flow == Escaped then [] else [BuildFrame(st.frameIndex, d.sample)])
            && Releases(c.events) == (if c.flow == Escaped then 0 else 1)
            && CodecPrivateDataSent(c.events) ==
                 (if SendsCodecPrivateData(st, d.sample) then [FirstCodecData(d.sample).value] else [])
            && FramesBeforeCodecPrivateData(c.events) ==
                 (if SendsCodecPrivateData(st, d.sample) then 0 else |Frames(c.events)|)
  {
    var c := OnNewSample(st, d);
    var sends := SendsCodecPrivateData(st, d.sample);
    var announced: seq<Event> := if sends then [CodecPrivateData(FirstCodecData(d.sample).value)] else [];
    var frame := OnFrame(BuildFrame(st.frameIndex, d.sample));
    if sends {
      SingletonProjections(announced[0]);
      assert announced == [announced[0]];
    }
    if c.flow == Escaped {
      assert c.events == announced;
    } else {
      assert c.events == announced + [frame] + [Released];
      SingletonProjections(frame);
      SingletonProjections(Released);
      FramesAppend(announced + [frame], [Released]);
      FramesAppend(announced, [frame]);
      CodecPrivateDataSentAppend(announced + [frame], [Released]);
      CodecPrivateDataSentAppend(announced, [frame]);
      ReleasesAppend(announced + [frame], [Released]);
      ReleasesAppend(announced, [frame]);
      FramesBeforeCodecPrivateDataAppend(announced + [frame], [Released]);
      FramesBeforeCodecPrivateDataAppend(announced, [frame]);
    }
  }

  /** Frames numbered from the counter left by a callback that sent at most
      one frame, with the counter it found, are numbered from that earlier
      counter once the callback's frame is put in front. */
  lemma PrependFrame(i: Int32, j: Int32, head: seq<Frame>, tail: seq<Frame>)
    requires (head == [] && j == i) || (|head| == 1 && head[0].index == i && j == PostIncrement(i))
    requires forall k :: 0 <= k < |tail| ==> tail[k].index == Advance(j, k)
    ensures forall k :: 0 <= k < |head + tail| ==> (head + tail)[k].index == Advance(i, k)
    ensures Advance(j, |tail|) == Advance(i, |head + tail|)
  {
    forall k | 0 <= k < |head + tail|
      ensures (head + tail)[k].index == Advance(i, k)
    {
      if k >= |head| {
        assert (head + tail)[k] == tail[k - |head|];
      }
    }
  }

  // ----- Properties of a run -----

  /** Frame indices run on from the runner's counter with no gap: the k-th frame
      handed to the sink carries the counter post-incremented k times, and the
      counter ends up advanced once per frame. */
  lemma {:induction false} RunFrameIndices(st: AdapterState, ds: seq<Delivery>)
    ensures var r := Run(st, ds);
            var fs := Frames(r.events);
            && (forall k :: 0 <= k < |fs| ==> fs[k].index == Advance(st.frameIndex, k))
            && r.final.frameIndex == Advance(st.frameIndex, |fs|)
    decreases |ds|
  {
    if |ds| > 0 {
      var r := Run(st, ds);
      var c := OnNewSample(st, ds[0]);
      var rest := Run(c.next, ds[1..]);
      assert r.events == c.events + rest.events;
      RunFrameIndices(c.next, ds[1..]);
      CallbackProjections(st, ds[0]);
      FramesAppend(c.events, rest.events);
      PrependFrame(st.frameIndex, c.next.frameIndex, Frames(c.events), Frames(rest.events));
    }
  }

  /** One index is consumed, one frame sent and one sample released per callback
      that gets past the codec-private-data call, whatever the sink answers to
      the frame. */
  lemma {:induction false} RunCompletions(st: AdapterState, ds: seq<Delivery>)
    ensures var r := Run(st, ds);
            && |Frames(r.events)| == Completed(r.flows)
            && Releases(r.events) == Completed(r.flows)
    decreases |ds|
  {
    if |ds| > 0 {
      var r := Run(st, ds);
      var c := OnNewSample(st, ds[0]);
      var rest := Run(c.next, ds[1..]);
      assert r.events == c.events + rest.events;
      assert r.flows == [c.flow] + rest.flows;
      assert r.flows[1..] == rest.flows;
      RunCompletions(c.next, ds[1..]);
      CallbackProjections(st, ds[0]);
      FramesAppend(c.events, rest.events);
      ReleasesAppend(c.events, rest.events);
    }
  }

  /** A fresh runner numbers its frames 0, 1, 2, ... for as long as the index
      fits in a Java `int`. */
  lemma FreshRunnerNumbersFromZero(ds: seq<Delivery>)
    ensures var fs := Frames(Run(Fresh, ds).events);
            forall k :: 0 <= k < |fs| && k <= MaxInt32 ==> fs[k].index == k
  {
    RunFrameIndices(Fresh, ds);
    var fs := Frames(Run(Fresh, ds).events);
    forall k | 0 <= k < |fs| && k <= MaxInt32
      ensures fs[k].index == k
    {
      AdvanceFromZero(k);
    }
  }

  /** Codec private data is sent at most once per runner, and it is the first
      `codec_data` value of the first sample that carries one; a sample without
      `codec_data` leaves the latch open for a later one. */
  lemma {:induction false} RunCodecPrivateData(st: AdapterState, ds: seq<Delivery>)
    ensures var r := Run(st, ds);
            && CodecPrivateDataSent(r.events) ==
                 (if st.codecPrivateDataSet then [] else ToSeq(FirstCodecDataIn(ds)))
            && (r.final.codecPrivateDataSet <==> st.codecPrivateDataSet || FirstCodecDataIn(ds).Some?)
    decreases |ds|
  {
    if |ds| > 0 {
      var c := OnNewSample(st, ds[0]);
      var rest := Run(c.next, ds[1..]);
      RunCodecPrivateData(c.next, ds[1..]);
      CallbackProjections(st, ds[0]);
      CodecPrivateDataSentAppend(c.events, rest.events);
    }
  }

  /** The codec private data reaches the sink right before the frame of the
      first sample that carries it: exactly the frames of the earlier samples
      precede it. With compliant input (codec data on the first sample) it
      precedes every frame. */
  lemma {:induction false} RunCodecPrivateDataPosition(st: AdapterState, ds: seq<Delivery>)
    requires !st.codecPrivateDataSet
    ensures FramesBeforeCodecPrivateData(Run(st, ds).events) == CodecDataPosition(ds)
    decreases |ds|
  {
    if |ds| > 0 {
      var c := OnNewSample(st, ds[0]);
      var rest := Run(c.next, ds[1..]);
      CallbackProjections(st, ds[0]);
      FramesBeforeCodecPrivateDataAppend(c.events, rest.events);
      if !SendsCodecPrivateData(st, ds[0].sample) {
        RunCodecPrivateDataPosition(c.next, ds[1..]);
      }
    }
  }

  /** Whether the sink accepts the one codec-private-data call a run can make:
      the latch is already set, no sample carries codec data, or the sink
      accepts the call made for the first sample that does. */
  predicate NoCodecPrivateDataRefused(st: AdapterState, ds: seq<Delivery>)
  {
    var p := CodecDataPosition(ds);
    st.codecPrivateDataSet || p >= |ds| || ds[p].reply.acceptsCodecPrivateData
  }

  /** A callback in a run where no codec-private-data call is refused does not
      escape, and the rest of the run still refuses none. */
  lemma {:induction false} NoCodecPrivateDataRefusedStep(st: AdapterState, ds: seq<Delivery>)
    requires |ds| > 0 && NoCodecPrivateDataRefused(st, ds)
    ensures OnNewSample(st, ds[0]).flow != Escaped
    ensures NoCodecPrivateDataRefused(OnNewSample(st, ds[0]).next, ds[1..])
  {
    var c := OnNewSample(st, ds[0]);
    if !st.codecPrivateDataSet && FirstCodecData(ds[0].sample).None? {
      assert CodecDataPosition(ds) == 1 + CodecDataPosition(ds[1..]);
      if CodecDataPosition(ds) < |ds| {
        assert ds[CodecDataPosition(ds)] == ds[1..][CodecDataPosition(ds[1..])];
      }
    }
  }

  /** A refused codec-private-data call shows up in the run: some callback
      escapes. Together with `RunFlowReturns`, a run has no escaping callback
      exactly when no codec-private-data call is refused. */
  lemma {:induction false} RefusedCodecPrivateDataEscapes(st: AdapterState, ds: seq<Delivery>)
    requires !NoCodecPrivateDataRefused(st, ds)
    ensures Escaped in Run(st, ds).flows
    decreases |ds|
  {
    var c := OnNewSample(st, ds[0]);
    var rest := Run(c.next, ds[1..]);
    assert Run(st, ds).flows == [c.flow] + rest.flows;
    if FirstCodecData(ds[0].sample).Some? {
      assert c.flow == Escaped;
    } else {
      assert CodecDataPosition(ds) == 1 + CodecDataPosition(ds[1..]);
      assert ds[CodecDataPosition(ds)] == ds[1..][CodecDataPosition(ds[1..])];
      RefusedCodecPrivateDataEscapes(c.next, ds[1..]);
    }
  }

  /** Reference definition of the frames for a run that never escapes: the
      samples' frames built in order, the counter post-incremented between
      them. */
  function BuildAll(i: Int32, ds: seq<Delivery>): (fs: seq<Frame>)
    ensures |fs| == |ds|
    decreases |ds|
  {
    if |ds| == 0 then [] else [BuildFrame(i, ds[0].sample)] + BuildAll(PostIncrement(i), ds[1..])
  }

  /** The k-th reference frame is built from the k-th sample with the counter
      post-incremented k times. */
  lemma {:induction false} BuildAllIndexing(i: Int32, ds: seq<Delivery>, k: nat)
    requires k < |ds|
    ensures BuildAll(i, ds)[k] == BuildFrame(Advance(i, k), ds[k].sample)
    decreases k
  {
    if k > 0 {
      BuildAllIndexing(PostIncrement(i), ds[1..], k - 1);
      assert ds[1..][k - 1] == ds[k];
    }
  }

  /** When no codec-private-data call is refused, the run is frame
      for sample: its frames are exactly the reference frames. */
  lemma {:induction false} RunFrameForSample(st: AdapterState, ds: seq<Delivery>)
    requires NoCodecPrivateDataRefused(st, ds)
    ensures Frames(Run(st, ds).events) == BuildAll(st.frameIndex, ds)
    decreases |ds|
  {
    if |ds| > 0 {
      var c := OnNewSample(st, ds[0]);
      var rest := Run(c.next, ds[1..]);
      assert Run(st, ds).events == c.events + rest.events;
      NoCodecPrivateDataRefusedStep(st, ds);
      RunFrameForSample(c.next, ds[1..]);
      CallbackProjections(st, ds[0]);
      FramesAppend(c.events, rest.events);
    }
  }

  /** The flow returns that answer each frame: OK for an accepted one, ERROR
      for a refused one. */
  function Answers(ds: seq<Delivery>): (flows: seq<Flow>)
    ensures |flows| == |ds|
    ensures forall k :: 0 <= k < |ds| ==> flows[k] != Escaped
    ensures forall k :: 0 <= k < |ds| ==> (flows[k] == FlowOk <==> ds[k].reply.acceptsFrame)
  {
    seq(|ds|, k requires 0 <= k < |ds| => if ds[k].reply.acceptsFrame then FlowOk else FlowError)
  }

  /** When no codec-private-data call is refused, no callback escapes
      and each flow return is the sink's answer to that callback's frame. */
  lemma {:induction false} RunFlowReturns(st: AdapterState, ds: seq<Delivery>)
    requires NoCodecPrivateDataRefused(st, ds)
    ensures Run(st, ds).flows == Answers(ds)
    decreases |ds|
  {
    if |ds| > 0 {
      var c := OnNewSample(st, ds[0]);
      var rest := Run(c.next, ds[1..]);
      assert Run(st, ds).flows == [c.flow] + rest.flows;
      NoCodecPrivateDataRefusedStep(st, ds);
      RunFlowReturns(c.next, ds[1..]);
      assert Answers(ds) == [c.flow] + Answers(ds[1..]);
    }
  }
}
