/** Concrete runs of the new-sample callback on a fresh runner, worked out end
    to end: the usual case, codec data arriving late, a rejected frame, and
    samples lacking one or both timestamps. */
module Scenarios {
  import opened Wrappers
  import opened JavaNum
  import opened SampleAdapter

  const AcceptAll: SinkReply := SinkReply(true, true)

  /** A key frame carrying codec data followed by two delta frames: the codec
      data goes out once before frame 0, indices count 0, 1, 2, timestamps are
      in 100-ns units and every frame lasts 200000 units. */
  lemma HappyPath(cd: seq<byte>, p1: seq<byte>, p2: seq<byte>, p3: seq<byte>)
    ensures var ds := [
              Delivery(Sample(Valid(100_000), Valid(100_000), false, Some([cd]), p1), AcceptAll),
              Delivery(Sample(Valid(133_333_000), Valid(133_333_000), true, None, p2), AcceptAll),
              Delivery(Sample(Valid(166_666_000), Valid(166_666_000), true, None, p3), AcceptAll)];
            var r := Run(Fresh, ds);
            && r.events == [
                 CodecPrivateData(cd),
                 OnFrame(Frame(0, FrameFlagKeyFrame, 1000, 1000, 200_000, p1)), Released,
                 OnFrame(Frame(1, FrameFlagNone, 1_333_330, 1_333_330, 200_000, p2)), Released,
                 OnFrame(Frame(2, FrameFlagNone, 1_666_660, 1_666_660, 200_000, p3)), Released]
            && r.flows == [FlowOk, FlowOk, FlowOk]
            && r.final == AdapterState(true, 3)
  {
    var ds := [
      Delivery(Sample(Valid(100_000), Valid(100_000), false, Some([cd]), p1), AcceptAll),
      Delivery(Sample(Valid(133_333_000), Valid(133_333_000), true, None, p2), AcceptAll),
      Delivery(Sample(Valid(166_666_000), Valid(166_666_000), true, None, p3), AcceptAll)];
    var c1 := OnNewSample(Fresh, ds[0]);
    assert c1 == Callback(AdapterState(true, 1),
                          [CodecPrivateData(cd), OnFrame(Frame(0, FrameFlagKeyFrame, 1000, 1000, 200_000, p1)), Released],
                          FlowOk);
    QuietCallback(c1.next, ds[1]);
    var c2 := OnNewSample(c1.next, ds[1]);
    assert BuildFrame(1, ds[1].sample) == Frame(1, FrameFlagNone, 1_333_330, 1_333_330, 200_000, p2);
    QuietCallback(c2.next, ds[2]);
    var c3 := OnNewSample(c2.next, ds[2]);
    assert BuildFrame(2, ds[2].sample) == Frame(2, FrameFlagNone, 1_666_660, 1_666_660, 200_000, p3);
    assert ds[1..] == [ds[1], ds[2]] && ds[1..][1..] == [ds[2]] && ds[1..][1..][1..] == [];
    assert Run(c2.next, ds[1..][1..]) == RunResult(c3.next, c3.events, [c3.flow]);
    assert Run(c1.next, ds[1..]) == RunResult(c3.next, c2.events + c3.events, [c2.flow, c3.flow]);
  }

  /** Codec data that first appears on the second sample still goes out, once,
      between frame 0 and frame 1. */
  lemma LateCodecData(cd: seq<byte>, p1: seq<byte>, p2: seq<byte>)
    ensures var ds := [
              Delivery(Sample(Valid(0), Valid(0), false, None, p1), AcceptAll),
              Delivery(Sample(Valid(1000), Valid(1000), true, Some([cd]), p2), AcceptAll)];
            var r := Run(Fresh, ds);
            && r.events == [
                 OnFrame(Frame(0, FrameFlagKeyFrame, 0, 0, 200_000, p1)), Released,
                 CodecPrivateData(cd),
                 OnFrame(Frame(1, FrameFlagNone, 10, 10, 200_000, p2)), Released]
            && r.final.codecPrivateDataSet
  {
    var ds := [
      Delivery(Sample(Valid(0), Valid(0), false, None, p1), AcceptAll),
      Delivery(Sample(Valid(1000), Valid(1000), true, Some([cd]), p2), AcceptAll)];
    var c1 := OnNewSample(Fresh, ds[0]);
    var c2 := OnNewSample(c1.next, ds[1]);
    assert c1.events == [OnFrame(Frame(0, FrameFlagKeyFrame, 0, 0, 200_000, p1)), Released];
    assert c2.events == [CodecPrivateData(cd), OnFrame(Frame(1, FrameFlagNone, 10, 10, 200_000, p2)), Released];
    assert ds[1..] == [ds[1]] && ds[1..][1..] == [];
    assert Run(c1.next, ds[1..]) == RunResult(c2.next, c2.events, [c2.flow]);
  }

  /** A sink that rejects the third frame: the callback returns ERROR for it,
      the sample is still released, and index 2 is used up. */
  lemma SinkRejectsThirdFrame(p: seq<byte>)
    ensures var s := Sample(Valid(0), Valid(0), true, None, p);
            var r := Run(AdapterState(true, 0),
                         [Delivery(s, AcceptAll), Delivery(s, AcceptAll), Delivery(s, SinkReply(true, false))]);
            && r.flows == [FlowOk, FlowOk, FlowError]
            && r.final.frameIndex == 3
            && Releases(r.events) == 3
  {
    var s := Sample(Valid(0), Valid(0), true, None, p);
    var ds := [Delivery(s, AcceptAll), Delivery(s, AcceptAll), Delivery(s, SinkReply(true, false))];
    RunCompletions(AdapterState(true, 0), ds);
    RunFrameIndices(AdapterState(true, 0), ds);
    RunFlowReturns(AdapterState(true, 0), ds);
    var r := Run(AdapterState(true, 0), ds);
    assert r.flows == [FlowOk, FlowOk, FlowError];
    var fl := r.flows;
    assert fl[1..] == [FlowOk, FlowError] && fl[1..][1..] == [FlowError] && fl[1..][1..][1..] == [];
    assert Completed(fl[1..][1..]) == 1;
    assert Completed(fl) == 3;
    RunFrameForSample(AdapterState(true, 0), ds);
    AdvanceFromZero(3);
  }

  /** A sink that rejects the codec private data: the latch is set anyway, the
      exception escapes before any frame is built, the index is not consumed
      and the sample is not released; the next sample sends no codec data and
      gets frame 0. */
  lemma SinkRejectsCodecPrivateData(cd: seq<byte>, p1: seq<byte>, p2: seq<byte>)
    ensures var ds := [
              Delivery(Sample(Valid(0), Valid(0), false, Some([cd]), p1), SinkReply(false, true)),
              Delivery(Sample(Valid(1000), Valid(1000), false, Some([cd]), p2), AcceptAll)];
            var r := Run(Fresh, ds);
            && r.events == [CodecPrivateData(cd), OnFrame(Frame(0, FrameFlagKeyFrame, 10, 10, 200_000, p2)), Released]
            && r.flows == [Escaped, FlowOk]
            && r.final == AdapterState(true, 1)
  {
    var ds := [
      Delivery(Sample(Valid(0), Valid(0), false, Some([cd]), p1), SinkReply(false, true)),
      Delivery(Sample(Valid(1000), Valid(1000), false, Some([cd]), p2), AcceptAll)];
    var c1 := OnNewSample(Fresh, ds[0]);
    var c2 := OnNewSample(c1.next, ds[1]);
    assert c1.events == [CodecPrivateData(cd)];
    assert c2.events == [OnFrame(Frame(0, FrameFlagKeyFrame, 10, 10, 200_000, p2)), Released];
    assert ds[1..] == [ds[1]] && ds[1..][1..] == [];
    assert Run(c1.next, ds[1..]) == RunResult(c2.next, c2.events, [c2.flow]);
  }

  /** A missing presentation time takes the decode time, a missing decode time
      takes the presentation time, and when both are missing a framework that
      reads "none" as -1 ns yields 0 for both under Java's truncating division. */
  lemma MissingTimestamps(raw: Int64, p: seq<byte>)
    ensures BuildFrame(0, Sample(Invalid(raw), Valid(500_000), false, None, p)).decodeTs == 5000
    ensures BuildFrame(0, Sample(Invalid(raw), Valid(500_000), false, None, p)).presentationTs == 5000
    ensures BuildFrame(0, Sample(Valid(500_000), Invalid(raw), false, None, p)).decodeTs == 5000
    ensures BuildFrame(0, Sample(Valid(500_000), Invalid(raw), false, None, p)).presentationTs == 5000
    ensures BuildFrame(0, Sample(Invalid(-1), Invalid(-1), false, None, p)).presentationTs == 0
    ensures BuildFrame(0, Sample(Invalid(-1), Invalid(-1), false, None, p)).decodeTs == 0
  {
  }
}
