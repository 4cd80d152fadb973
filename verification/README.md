# RTSP-to-Kinesis media source, modelled in Dafny

This project models `GStreamerRtspMediaSource`, a Kinesis Video producer
media source. It reads H.264 from an RTSP camera through a GStreamer
pipeline and hands codec private data and frames to the producer's sink.
The model covers three parts of the class.

- **Controller lifecycle** (`media_source.dfy`, module `MediaSource`). The
  source holds a fixed configuration and at most one `Runner`. No state is
  stored. The state is read off two facts: whether a runner exists, and
  whether its pipeline reports playing. The lifecycle calls are
  `Initialize`, `Start`, `Stop` and `Free`. Each one returns the new source
  and the exception it threw, if any. Whether the pipeline plays is decided
  by GStreamer, so it arrives as input: the outcome of building the pipeline
  (`linked`), the result of `play()` (`PlayResult`), and later changes of
  its own accord (`PipelineReports`). `Exec` runs any sequence of calls,
  pipeline changes and samples.
- **Per-sample adapter** (`sample_adapter.dfy`, module `SampleAdapter`).
  This is the appsink's new-sample callback, written as a pure step
  `OnNewSample : (AdapterState, Delivery) -> (AdapterState, events, flow)`.
  It covers:
  - the one-shot codec-private-data latch;
  - the timestamp fix-up (a valid PTS wins, otherwise the DTS is copied);
  - key-frame classification from the DELTA_UNIT bit;
  - the post-incremented Java `int` frame index;
  - conversion from nanoseconds to 100-ns units with Java's truncating
    division;
  - the fixed 20 ms duration;
  - the OK/ERROR flow return;
  - the release of the sample.

  The sink is an oracle: each `Delivery` carries the sink's answer to the
  calls it may receive. The events are the visible trace, in order:
  `CodecPrivateData(bytes)`, `OnFrame(frame)` and `Released` (buffer
  unmapped and sample disposed). `Run` chains callbacks on one runner.
- **Stream descriptor** (`stream_descriptor.dfy`, module `StreamDescriptor`).
  `getStreamInfo` is a pure function of the retention period, the tags and
  the stream name. It carries Java's `Duration.toNanos()` overflow and
  `long` division.

Shared pieces:
- `java_num.dfy` (module `JavaNum`) holds Java `int`/`long` ranges,
  two's-complement wrap-around, truncating division and `Duration`.
- `wrappers.dfy` holds `Option`/`Result`.
- `scenarios.dfy` works concrete runs out end to end.

Points where the code's behaviour is easy to misread, modelled as the code
has them:
- The frame duration is `Duration.ofMillis(20).toNanos() / 100 = 200000`
  units, not 200.
- The codec-private-data flag is set *before* the sink is called, so a
  rejected call still latches.
- The rejected codec-private-data call escapes as a `RuntimeException`
  before the `try`/`finally`. That callback therefore neither builds a
  frame, nor consumes an index, nor releases the sample.
- There is no UNINITIALIZED state. A new source, or one that has been
  stopped, reports STOPPED.
- `start()` does not check for READY. It also plays a RUNNING source again.

## Model

| member | source | states |
|---|---|---|
| MediaSource.New | src/main/java/codes/rik/kinesisvideo/gstreamer/GStreamerRtspMediaSource.java:52-56 | a new source is STOPPED and keeps the URI, the retention period and the tags as given; the copy taken at line 55 means later writes to the caller's array do not reach it |
| MediaSource.State | src/main/java/codes/rik/kinesisvideo/gstreamer/GStreamerRtspMediaSource.java:60-64 | RUNNING iff a runner exists and its pipeline plays; READY iff a runner exists and does not play; STOPPED iff there is no runner |
| MediaSource.IsStopped | src/main/java/codes/rik/kinesisvideo/gstreamer/GStreamerRtspMediaSource.java:120-122 | holds exactly when the state is STOPPED, that is, exactly when there is no runner |
| MediaSource.Initialize | src/main/java/codes/rik/kinesisvideo/gstreamer/GStreamerRtspMediaSource.java:100-103 | throws "Already initialized" iff a runner exists, even a READY one; otherwise a failed pipeline build throws and installs nothing, and a successful one installs a non-playing runner with index 0 and the latch clear; a throw changes nothing |
| MediaSource.Start | src/main/java/codes/rik/kinesisvideo/gstreamer/GStreamerRtspMediaSource.java:106-108 | throws "Started before initialized" iff there is no runner, "Unable to set pipeline to playing state" iff `play()` fails; otherwise keeps the runner's sink, counter and latch and is RUNNING iff the pipeline now plays |
| MediaSource.Stop | src/main/java/codes/rik/kinesisvideo/gstreamer/GStreamerRtspMediaSource.java:113-117 | always leaves the source STOPPED with its configuration intact; without a runner it changes nothing |
| MediaSource.Free | src/main/java/codes/rik/kinesisvideo/gstreamer/GStreamerRtspMediaSource.java:125-127 | the same promise as `stop()`: STOPPED afterwards, and a no-op when already stopped |
| MediaSource.FreeIsStop | src/main/java/codes/rik/kinesisvideo/gstreamer/GStreamerRtspMediaSource.java:125-127 | `free()` is exactly `stop()` |
| MediaSource.StopIdempotent | src/main/java/codes/rik/kinesisvideo/gstreamer/GStreamerRtspMediaSource.java:113-117 | a second `stop()` has no effect |
| MediaSource.PipelineReports | src/main/java/codes/rik/kinesisvideo/gstreamer/GStreamerRtspMediaSource.java:159-161 | the pipeline's own state changes never create or remove a runner or touch its counter; with a runner, the state is RUNNING iff the pipeline plays |
| MediaSource.PipelineErrorNeedsStop | src/main/java/codes/rik/kinesisvideo/gstreamer/GStreamerRtspMediaSource.java:60-64 | a RUNNING source whose pipeline stops playing reads READY, `initialize` still refuses it, and after `stop()` it succeeds with a fresh counter and latch |
| MediaSource.Deliver | src/main/java/codes/rik/kinesisvideo/gstreamer/GStreamerRtspMediaSource.java:182-184 | a sample reaches the current runner's callback, which updates only that runner's counter and latch and never changes the lifecycle state; without a runner nothing happens |
| MediaSource.DescriptorStableAcrossLifecycle | src/main/java/codes/rik/kinesisvideo/gstreamer/GStreamerRtspMediaSource.java:47-49 | no sequence of lifecycle calls, pipeline changes or samples changes the configuration, so the stream descriptor is the same in every state |
| MediaSource.TagsFixedAtConstruction | src/main/java/codes/rik/kinesisvideo/gstreamer/GStreamerRtspMediaSource.java:55 | the descriptor's tags are the ones given at construction, after any sequence of lifecycle calls, pipeline changes and samples (writes through a returned descriptor are outside the model, see Left out) |
| MediaSource.SessionFrameIndices | src/main/java/codes/rik/kinesisvideo/gstreamer/GStreamerRtspMediaSource.java:129-133 | until `stop`/`free`, a runner survives every call, including a refused `initialize` and repeated or failed `start`s, and its frames are numbered on from its counter with no gap or restart |
| StreamDescriptor.GetStreamInfo | src/main/java/codes/rik/kinesisvideo/gstreamer/GStreamerRtspMediaSource.java:68-96 | fails only when the retention period overflows a `long` of nanoseconds; otherwise it returns the requested name and the constructor's tags, the retention in 100-ns units rounded toward zero, fragment 20000000, bandwidth 4 MiB/s, 30 fps, buffer 1200000000, replay 400000000, staleness 300000000, timecode scale 10000, and the fixed strings and flags |
| StreamDescriptor.DescriptorDurationsRoundTrip | src/main/java/codes/rik/kinesisvideo/gstreamer/GStreamerRtspMediaSource.java:75-91 | multiplying each fixed duration field by 100 gives back the duration in nanoseconds exactly (2 s, 120 s, 40 s, 30 s, 1 ms); the retention does too when it is a whole number of 100 ns |
| JavaNum.ToNanos | src/main/java/codes/rik/kinesisvideo/gstreamer/GStreamerRtspMediaSource.java:75 | `Duration.toNanos()` succeeds exactly when the length fits in a `long`, and is then exact |
| JavaNum.JavaDivBy100 | src/main/java/codes/rik/kinesisvideo/gstreamer/GStreamerRtspMediaSource.java:243-244 | `/ 100` rounds toward zero: the remainder has the dividend's sign and is below 100 in magnitude |
| JavaNum.PostIncrement | src/main/java/codes/rik/kinesisvideo/gstreamer/GStreamerRtspMediaSource.java:241 | `frameIndex++` adds one, except that the largest `int` wraps to the smallest |
| JavaNum.AdvanceWraps | src/main/java/codes/rik/kinesisvideo/gstreamer/GStreamerRtspMediaSource.java:133 | n post-increments of the `int` counter add n modulo 2^32 |
| JavaNum.AdvanceFromZero | src/main/java/codes/rik/kinesisvideo/gstreamer/GStreamerRtspMediaSource.java:133 | a counter starting at 0 reads n after n increments, for every n up to the largest `int` |
| SampleAdapter.FirstCodecData | src/main/java/codes/rik/kinesisvideo/gstreamer/GStreamerRtspMediaSource.java:209 | only the first `codec_data` value is taken, and there is one exactly when the caps list is present and non-empty |
| SampleAdapter.BuildFrame | src/main/java/codes/rik/kinesisvideo/gstreamer/GStreamerRtspMediaSource.java:229-246 | the decode and presentation times are always equal: PTS/100 when PTS is valid, else DTS/100; KEY_FRAME iff DELTA_UNIT is clear, NONE iff set; the duration is 20 ms; the index and payload are passed through |
| SampleAdapter.OnNewSample | src/main/java/codes/rik/kinesisvideo/gstreamer/GStreamerRtspMediaSource.java:202-260 | the latch is set iff it was set or the sample has codec data; codec data is sent first and only while the latch is open; only its rejection escapes, leaving the index and skipping frame and release; otherwise one frame with the current index, then the release; the index is consumed whatever the sink says; OK iff the sink took the frame, ERROR iff it refused it |
| SampleAdapter.RunFrameIndices | src/main/java/codes/rik/kinesisvideo/gstreamer/GStreamerRtspMediaSource.java:240-241 | over any run, the k-th frame sent carries the starting counter post-incremented k times, and the final counter is advanced once per frame |
| SampleAdapter.FreshRunnerNumbersFromZero | src/main/java/codes/rik/kinesisvideo/gstreamer/GStreamerRtspMediaSource.java:133 | a fresh runner numbers its frames 0, 1, 2, ... with no gaps |
| SampleAdapter.RunCompletions | src/main/java/codes/rik/kinesisvideo/gstreamer/GStreamerRtspMediaSource.java:248-259 | the number of frames sent and of samples released both equal the number of callbacks that did not escape, so release happens on the OK and the ERROR path alike |
| SampleAdapter.RunCodecPrivateData | src/main/java/codes/rik/kinesisvideo/gstreamer/GStreamerRtspMediaSource.java:208-223 | over any run, codec private data is sent at most once, never once latched, and it is the first value of the first sample that carries any; samples without it leave the latch open |
| SampleAdapter.RunCodecPrivateDataPosition | src/main/java/codes/rik/kinesisvideo/gstreamer/GStreamerRtspMediaSource.java:207-224 | with the latch open, exactly as many frames precede the codec private data as samples precede the first one that carries it, so it comes before every frame when the first sample carries it |
| SampleAdapter.QuietCallback | src/main/java/codes/rik/kinesisvideo/gstreamer/GStreamerRtspMediaSource.java:208-260 | a callback that sends no codec private data, because the latch is set or the sample has none, sends exactly its frame with the current index, releases the sample, consumes the index and returns the sink's answer |
| SampleAdapter.RunFrameForSample | src/main/java/codes/rik/kinesisvideo/gstreamer/GStreamerRtspMediaSource.java:226-246 | when the one codec-private-data call a run can make (for the first sample carrying codec data, while the latch is open) is not refused, the frames sent are exactly the reference list of each sample's frame in order, so they depend on the samples alone |
| SampleAdapter.RefusedCodecPrivateDataEscapes | src/main/java/codes/rik/kinesisvideo/gstreamer/GStreamerRtspMediaSource.java:216-223 | conversely, when that one codec-private-data call is refused, some callback of the run escapes; so a run has no escaping callback exactly when the call is not refused |
| SampleAdapter.BuildAllIndexing | src/main/java/codes/rik/kinesisvideo/gstreamer/GStreamerRtspMediaSource.java:240-246 | in that reference list, the k-th frame is built from the k-th sample with the counter post-incremented k times |
| SampleAdapter.RunFlowReturns | src/main/java/codes/rik/kinesisvideo/gstreamer/GStreamerRtspMediaSource.java:248-255 | under the same condition, no callback escapes and the k-th flow return is OK iff the sink accepted the k-th frame and ERROR iff it refused it |
| Scenarios.HappyPath | src/main/java/codes/rik/kinesisvideo/gstreamer/GStreamerRtspMediaSource.java:202-260 | a key frame with codec data then two delta frames yield codec data once, then frames 0, 1, 2 at 1000, 1333330 and 1666660 units, each lasting 200000 and each released |
| Scenarios.LateCodecData | src/main/java/codes/rik/kinesisvideo/gstreamer/GStreamerRtspMediaSource.java:208-224 | codec data first seen on the second sample is sent between frame 0 and frame 1 |
| Scenarios.SinkRejectsThirdFrame | src/main/java/codes/rik/kinesisvideo/gstreamer/GStreamerRtspMediaSource.java:248-259 | a refused third frame gives ERROR, is still released, and leaves the counter at 3 |
| Scenarios.SinkRejectsCodecPrivateData | src/main/java/codes/rik/kinesisvideo/gstreamer/GStreamerRtspMediaSource.java:216-223 | a refused codec-private-data call latches, escapes with no frame and no release, and the next sample gets frame 0 and no codec data |
| Scenarios.MissingTimestamps | src/main/java/codes/rik/kinesisvideo/gstreamer/GStreamerRtspMediaSource.java:230-234 | a missing PTS takes the DTS and a missing DTS takes the PTS (5000 units for 500000 ns); a "none" read as -1 ns gives 0 |

## Left out

- Pipeline construction (`initPipeline`) is left out: the element factory, caps strings, properties, pad-added linking and bus-error logging are calls into GStreamer. Only the outcome of the static link (`linked`) is kept. A failure to link the dynamic pad happens later, on a GStreamer thread, and is not modelled.
- `Gst.init`, `Gst.main` and `Gst.quit` are left out. `Start` returns where the source would block in the main loop.
- Threading is left out: an in-flight callback after `stop()`, and the callback thread against the caller's thread. Samples are delivered one at a time to the current runner.
- What GStreamer does with an exception escaping the callback is not modelled. The next sample is simply handled next.
- Buffer mapping and byte copying are left out. Payload and `codec_data` are opaque byte sequences, and unmap plus dispose is one `Released` event. The codec_data buffer's own mapping, which the source never unmaps, is not tracked.
- SampleAdapter.BuildFrame: when both timestamps are invalid, the numeric time comes from the framework's raw reading of "none" (`Invalid(raw)`), which is left abstract; only the -1 ns reading is worked out.
- Clock times of 2^63 ns or more are left out. GStreamer's unsigned 64-bit times do not fit a Java `long`.
- Caps without a first structure, and a `codec_data` field of another type, are left out. The sample carries the list of `codec_data` buffers directly.
- SampleAdapter.OnNewSample: a sample whose caps have no `codec_data` field is assumed to read as no value (`codecData == None`), giving a callback that still sends and releases its frame. If the GStreamer binding throws for a missing field, as it may (its `Structure.getValues` is not part of this model), such a callback would instead escape at line 209 before any frame, and `LateCodecData` and `RunCodecPrivateDataPosition` describe a path the program would not take.
- StreamDescriptor.GetStreamInfo: the descriptor shares the source's own tag array (line 94), so every `StreamInfo` handed out aliases it. Writes through a returned `StreamInfo` are not modelled, and `MediaSource.TagsFixedAtConstruction` holds only as long as nobody makes such a write.
- MediaSource.TagsFixedAtConstruction: promises the tags only for the model's commands; a write through a returned `StreamInfo` would change them in the source, because of the shared array.
- Null arguments (`requireNonNull`) are left out, since Dafny values cannot be null. The range of `java.time.Duration` itself is not enforced either; only `toNanos()` overflow is.
- The sink is an oracle, not a component with state: each delivery carries its answers.
- The `StreamInfo`, `KinesisVideoFrame` and `FrameFlags` library types are records and enumerations only. Their numeric encodings are not modelled.
- The demo launcher (`GStreamerRtspPublisherDemo`) is left out. It is argument checking, AWS client and credential setup, and registration, all I/O and network.
