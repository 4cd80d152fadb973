/** The stream descriptor a media source hands to the Kinesis Video producer:
    a pure function of the configured retention period and tags and of the
    stream name the producer asks for. */
module StreamDescriptor {
  import opened Wrappers
  import opened JavaNum

  /** A producer `Tag`: a name/value pair attached to the stream. */
  datatype Tag = Tag(name: string, value: string)

  /** `StreamInfo.StreamingType`; the media source only ever asks for real time. */
  datatype StreamingType = StreamingTypeRealtime

  /** `StreamInfo.NalAdaptationFlags`; the caps filter already yields AVC, so none. */
  datatype NalAdaptationFlags = NalAdaptationFlagNone

  /** The producer's `StreamInfo` record, field for field in constructor order.
      Durations are in 100-nanosecond units. */
  datatype StreamInfo = StreamInfo(
    version: int,
    name: string,
    streamingType: StreamingType,
    contentType: string,
    kmsKeyId: string,
    retentionPeriod: Int64,
    adaptive: bool,
    maxLatency: Int64,
    fragmentDuration: Int64,
    keyFrameFragmentation: bool,
    frameTimecodes: bool,
    absoluteFragmentTimes: bool,
    fragmentAcks: bool,
    recoverOnError: bool,
    codecId: string,
    trackName: string,
    avgBandwidthBps: int,
    frameRate: int,
    bufferDuration: Int64,
    replayDuration: Int64,
    connectionStalenessDuration: Int64,
    timecodeScale: Int64,
    recalculateMetrics: bool,
    codecPrivateData: Option<seq<byte>>,
    tags: seq<Tag>,
    nalAdaptationFlags: NalAdaptationFlags)

  /** What a media source is constructed with and never changes afterwards. */
  datatype Config = Config(rtspUri: string, retentionPeriod: Duration, tags: seq<Tag>)

  const FragmentDuration: Duration := OfSeconds(2)
  const BufferDuration: Duration := OfSeconds(120)
  const ReplayDuration: Duration := OfSeconds(40)
  const ConnectionStalenessDuration: Duration := OfSeconds(30)
  const TimecodeScale: Duration := OfMillis(1)

  /** `getStreamInfo(streamName)`. The only step that can throw is converting the
      retention period to nanoseconds, which overflows a `long` for retention
      periods beyond about 292 years. */
  function GetStreamInfo(c: Config, streamName: string): (r: Result<StreamInfo, ArithmeticException>)
    ensures r.Ok? <==> MinInt64 <= c.retentionPeriod.nanos <= MaxInt64
    ensures r.Ok? ==> r.value.name == streamName && r.value.tags == c.tags
    ensures r.Ok? && c.retentionPeriod.nanos >= 0 ==>
              r.value.retentionPeriod * 100 <= c.retentionPeriod.nanos < r.value.retentionPeriod * 100 + 100
    ensures r.Ok? && c.retentionPeriod.nanos < 0 ==>
              r.value.retentionPeriod * 100 - 100 < c.retentionPeriod.nanos <= r.value.retentionPeriod * 100
    ensures r.Ok? ==>
              && r.value.fragmentDuration == 20_000_000
              && r.value.avgBandwidthBps == 4 * 1024 * 1024
              && r.value.frameRate == 30
              && r.value.bufferDuration == 1_200_000_000
              && r.value.replayDuration == 400_000_000
              && r.value.connectionStalenessDuration == 300_000_000
              && r.value.timecodeScale == 10_000
    ensures r.Ok? ==>
              && r.value.version == 0
              && r.value.streamingType == StreamingTypeRealtime
              && r.value.contentType == "video/h264"
              && r.value.kmsKeyId == ""
              && r.value.codecId == "V_MPEG4/ISO/AVC"
              && r.value.trackName == "kinesis_video"
              && r.value.maxLatency == 0
              && r.value.codecPrivateData.None?
              && r.value.nalAdaptationFlags == NalAdaptationFlagNone
    ensures r.Ok? ==>
              && !r.value.adaptive
              && r.value.keyFrameFragmentation
              && r.value.frameTimecodes
              && !r.value.absoluteFragmentTimes
              && r.value.fragmentAcks
              && r.value.recoverOnError
              && r.value.recalculateMetrics
  {
    match ToNanos(c.retentionPeriod)
    case Err(e) => Err(e)
    case Ok(retentionNanos) =>
      Ok(StreamInfo(
        0,
        streamName,
        StreamingTypeRealtime,
        "video/h264",
        "",
        JavaDivBy100(retentionNanos),
        false,
        0,
        HundredNanos(FragmentDuration),
        true,
        true,
        false,
        true,
        true,
        "V_MPEG4/ISO/AVC",
        "kinesis_video",
        4 * 1024 * 1024,
        30,
        HundredNanos(BufferDuration),
        HundredNanos(ReplayDuration),
        HundredNanos(ConnectionStalenessDuration),
        HundredNanos(TimecodeScale),
        true,
        None,
        c.tags,
        NalAdaptationFlagNone))
  }

  /** Converting every fixed duration of the descriptor back from 100-ns units
      gives the duration the media source chose, with nothing lost to the
      integer division; so does the retention period whenever it is a whole
      number of 100-ns units. */
  lemma DescriptorDurationsRoundTrip(c: Config, streamName: string)
    requires GetStreamInfo(c, streamName).Ok?
    ensures var info := GetStreamInfo(c, streamName).value;
            && info.fragmentDuration * 100 == FragmentDuration.nanos
            && info.bufferDuration * 100 == BufferDuration.nanos
            && info.replayDuration * 100 == ReplayDuration.nanos
            && info.connectionStalenessDuration * 100 == ConnectionStalenessDuration.nanos
            && info.timecodeScale * 100 == TimecodeScale.nanos
            && (c.retentionPeriod.nanos % 100 == 0 ==> info.retentionPeriod * 100 == c.retentionPeriod.nanos)
  {
    var info := GetStreamInfo(c, streamName).value;
    assert info.retentionPeriod == JavaDivBy100(c.retentionPeriod.nanos);
  }
}
