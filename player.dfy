/** The playback engine: track selection, input feeding, the two render
    paths, the playback loop with its active-track mask, and teardown. */
module Player {
  import opened MediaFormats
  import opened Extraction
  import opened TrackMask
  import opened Codecs
  import opened TrackSelection

  /** MediaCodec.BufferInfo: one record, written by dequeueOutputBuffer and
      read by whichever render path polled last. */
  class BufferInfo {
    var offset: int
    var size: int
    var presentationTimeUs: int
    var flags: bv32

    constructor ()
      ensures offset == 0 && size == 0 && presentationTimeUs == 0 && flags == 0
    {
      offset, size, presentationTimeUs, flags := 0, 0, 0, 0;
    }

    function Value(): Info
      reads this
    {
      Info(offset, size, presentationTimeUs, flags)
    }

    /** dequeueOutputBuffer returning a buffer index writes the buffer's
        information here. */
    method Fill(info: Info)
      modifies this
      ensures Value() == info
    {
      offset, size, presentationTimeUs, flags := info.offset, info.size, info.presentationTimeUs, info.flags;
    }
  }

  /** What setDataSource opens: the track list, and the samples the extractor
      yields once the chosen tracks are selected, in reading order. */
  datatype Container = Container(tracks: seq<Track>, samples: seq<Sample>)

  /** How a pass of the playback loop ends: it returns on -1 from the
      extractor, on an empty mask or an interrupt, or leaves by an exception;
      Running means it goes round again. */
  datatype Exit = EndOfSamples | NoActiveTracks | Interrupted | Faulted | Running

  /** What `bi` holds after a poll: only a returned buffer rewrites it. */
  function InfoAfter(info: Info, reply: OutputReply): Info
  {
    if reply.OutputBuffer? then reply.info else info
  }

  /** Whether the audio render path throws on this reply: the poll itself, or
      a format change whose format lacks a key that buildAudioTrack reads. */
  predicate AudioThrows(reply: OutputReply, minBufferSize: (int, int, int) -> int)
  {
    reply.OutputThrows? || (reply.FormatChanged? && BuildAudioTrack(reply.outputFormat, minBufferSize).Err?)
  }

  /** Whether one of the calls of an iteration threw. */
  predicate MayThrow(t: Tick, minBufferSize: (int, int, int) -> int)
  {
    t.input.InputThrows? || t.video.OutputThrows? || AudioThrows(t.audio, minBufferSize)
  }

  /** Whether dequeueInputBuffer's reply lets processInputSample queue: a slot
      index above 0 (slot 0 is passed over, like a negative index). */
  predicate Queues(reply: InputReply)
  {
    reply.InputSlot? && reply.index > 0
  }

  /** The calls processInputSample makes on `dec` with the extractor at `e`:
      the current sample, or an empty end-of-stream buffer when the read
      yields no bytes. */
  function InputCalls(dec: Codec, reply: InputReply, e: Extractor): (r: seq<Call>)
    ensures NoTeardown(r)
    ensures |r| == if Queues(reply) then 1 else 0
  {
    if !Queues(reply) then []
    else if e.ReadSampleData() > 0 then [QueueInput(dec, reply.index, e.ReadSampleData(), e.SampleTime(), 0)]
    else [QueueInput(dec, reply.index, 0, 0, BUFFER_FLAG_END_OF_STREAM)]
  }

  /** The calls renderVideoSample makes: a returned buffer is released for
      display at its presentation time in nanoseconds. */
  function VideoCalls(dec: Codec, reply: OutputReply): (r: seq<Call>)
    ensures NoTeardown(r)
    ensures |r| == if reply.OutputBuffer? then 1 else 0
  {
    if reply.OutputBuffer? then [ReleaseOutput(dec, reply.index, 1000 * reply.info.presentationTimeUs)] else []
  }

  /** The calls renderAudioSample makes: a returned buffer is queued on the
      MediaSync; a format change that builds (a sink, or none for an invalid
      mask) starts the sink, if any, and hands it and a callback to the
      MediaSync. */
  function AudioCalls(reply: OutputReply, minBufferSize: (int, int, int) -> int): (r: seq<Call>)
    ensures NoTeardown(r)
    ensures reply.OutputBuffer? ==> r == [QueueAudio(reply.index, reply.info.presentationTimeUs)]
    ensures !reply.OutputBuffer? && !reply.FormatChanged? ==> r == []
    ensures AudioThrows(reply, minBufferSize) ==> r == []
  {
    match reply
    case OutputBuffer(obx, info) => [QueueAudio(obx, info.presentationTimeUs)]
    case FormatChanged(format) =>
      (match BuildAudioTrack(format, minBufferSize)
       case Err(_) => []
       case Ok(sink) => (if sink.Some? then [PlaySink(sink.value)] else []) + [SetSyncAudioTrack(sink), SetSyncCallback])
    case _ => []
  }

  /** The decoder slots and index slots, which playback only reads. */
  datatype Decoders = Decoders(video: Option<Codec>, videoIdx: int, audio: Option<Codec>, audioIdx: int)

  /** What the render paths change: the shared buffer information, the audio
      sink and the active-track mask. */
  datatype RenderState = RenderState(info: Info, audioTrack: Option<AudioSinkConfig>, mask: Mask)

  /** The bits of the tracks whose decoders exist. */
  function Owned(d: Decoders): (m: Mask)
    ensures forall k :: k in m <==> (d.video.Some? && k == Bit(d.videoIdx)) || (d.audio.Some? && k == Bit(d.audioIdx))
  {
    (if d.video.Some? then {Bit(d.videoIdx)} else {}) + (if d.audio.Some? then {Bit(d.audioIdx)} else {})
  }

  /** The decoder the loop's `when` feeds for a sample of `track`: the
      video branch is tried first, and a branch without a decoder feeds
      nothing. */
  function InputDecoder(d: Decoders, track: int): (r: Option<Codec>)
    ensures r.Some? ==> r == d.video || r == d.audio
  {
    if track == d.videoIdx then d.video else if track == d.audioIdx then d.audio else None
  }

  /** Whether the `when` takes its `-1` branch and returns. */
  predicate EndsSamples(d: Decoders, track: int)
  {
    track != d.videoIdx && track != d.audioIdx && track == -1
  }

  /** What one render path did: whether it threw, whether it reported the
      end of its track, the state it left and the calls it made. */
  datatype PathResult = PathResult(failed: bool, ended: bool, state: RenderState, calls: seq<Call>)

  /** The video half of the render step: with a video decoder, poll it
      (renderVideoSample) and, when it reports the end, clear the video
      track's bit. */
  function VideoPoll(dec: Option<Codec>, idx: int, reply: OutputReply, s: RenderState): (r: PathResult)
    ensures NoTeardown(r.calls)
    ensures dec.None? ==> r == PathResult(false, false, s, [])
    ensures r.failed <==> dec.Some? && reply.OutputThrows?
    ensures r.failed ==> r.state == s && r.calls == []
    ensures r.state.mask <= s.mask && r.state.audioTrack == s.audioTrack
  {
    if dec.None? then PathResult(false, false, s, [])
    else if reply.OutputThrows? then PathResult(true, false, s, [])
    else
      var info := InfoAfter(s.info, reply);
      var ended := EndOfStream(info.flags);
      PathResult(false, ended, s.(info := info, mask := if ended then Without(s.mask, idx) else s.mask),
                 VideoCalls(dec.value, reply))
  }

  /** The audio half of the render step: with an audio decoder, poll it
      (renderAudioSample, which builds the sink on a format change) and, when
      it reports the end, clear the audio track's bit. */
  function AudioPoll(dec: Option<Codec>, idx: int, reply: OutputReply, minBufferSize: (int, int, int) -> int,
                     s: RenderState): (r: PathResult)
    ensures NoTeardown(r.calls)
    ensures dec.None? ==> r == PathResult(false, false, s, [])
    ensures r.failed <==> dec.Some? && AudioThrows(reply, minBufferSize)
    ensures r.failed ==> r.state == s && r.calls == []
    ensures r.state.mask <= s.mask
    ensures !reply.FormatChanged? ==> r.state.audioTrack == s.audioTrack
  {
    if dec.None? then PathResult(false, false, s, [])
    else if AudioThrows(reply, minBufferSize) then PathResult(true, false, s, [])
    else
      var info := InfoAfter(s.info, reply);
      var sink := if reply.FormatChanged? then BuildAudioTrack(reply.outputFormat, minBufferSize).value
                  else s.audioTrack;
      var ended := EndOfStream(info.flags);
      PathResult(false, ended, RenderState(info, sink, if ended then Without(s.mask, idx) else s.mask),
                 AudioCalls(reply, minBufferSize))
  }

  /** A render path reports the end of its track exactly when it ran without
      throwing and the shared buffer information it leaves carries the
      end-of-stream flag, whichever poll wrote that information; it then
      clears its own track's bit and no other, and otherwise leaves the mask
      alone. */
  lemma {:induction false} PollClearsOnlyItsTrack(video: bool, dec: Option<Codec>, idx: int, reply: OutputReply,
                                                  minBufferSize: (int, int, int) -> int, s: RenderState, j: int)
    ensures var r := if video then VideoPoll(dec, idx, reply, s) else AudioPoll(dec, idx, reply, minBufferSize, s);
      && (r.ended <==> dec.Some? && !r.failed && EndOfStream(r.state.info.flags))
      && (r.failed ==> r.state == s)
      && (j % 32 != idx % 32 ==> (Has(r.state.mask, j) <==> Has(s.mask, j)))
      && (Has(r.state.mask, idx) <==> Has(s.mask, idx) && !r.ended)
  {
    var r := if video then VideoPoll(dec, idx, reply, s) else AudioPoll(dec, idx, reply, minBufferSize, s);
    if r.ended {
      assert r.state.mask == Without(s.mask, idx);
      if j % 32 != idx % 32 {
        WithoutKeepsOthers(s.mask, idx, j);
      }
    } else {
      assert r.state.mask == s.mask;
    }
  }

  /** A render path only ever clears bits, and only its own track's bit. */
  lemma PollMaskInside(video: bool, dec: Option<Codec>, idx: int, reply: OutputReply,
                       minBufferSize: (int, int, int) -> int, s: RenderState, owned: Mask)
    requires dec.Some? ==> Bit(idx) in owned
    ensures var r := if video then VideoPoll(dec, idx, reply, s) else AudioPoll(dec, idx, reply, minBufferSize, s);
      r.state.mask <= s.mask && s.mask - owned <= r.state.mask
  {
  }

  /** What the two render paths of a pass did together: whether one threw,
      the state they left and the calls they made. The audio path is not
      reached when the video path throws. */
  datatype Rendering = Rendering(failed: bool, state: RenderState, calls: seq<Call>)

  function RenderPaths(d: Decoders, t: Tick, minBufferSize: (int, int, int) -> int, s0: RenderState): (r: Rendering)
    ensures NoTeardown(r.calls)
    ensures r.failed <==> (d.video.Some? && t.video.OutputThrows?) || (d.audio.Some? && AudioThrows(t.audio, minBufferSize))
    ensures r.state.mask <= s0.mask
  {
    var v := VideoPoll(d.video, d.videoIdx, t.video, s0);
    if v.failed then Rendering(true, v.state, v.calls)
    else
      var a := AudioPoll(d.audio, d.audioIdx, t.audio, minBufferSize, v.state);
      NoTeardownConcat(v.calls, a.calls);
      Rendering(a.failed, a.state, v.calls + a.calls)
  }

  /** The render paths only ever clear bits, and only bits of tracks that own
      a decoder. */
  lemma RenderKeepsMaskInside(d: Decoders, t: Tick, minBufferSize: (int, int, int) -> int, s0: RenderState)
    ensures var r := RenderPaths(d, t, minBufferSize, s0);
      r.state.mask <= s0.mask && s0.mask - Owned(d) <= r.state.mask
  {
    var r := RenderPaths(d, t, minBufferSize, s0);
    var v := VideoPoll(d.video, d.videoIdx, t.video, s0);
    PollMaskInside(true, d.video, d.videoIdx, t.video, minBufferSize, s0, Owned(d));
    if v.failed {
      assert r.state == v.state;
    } else {
      var a := AudioPoll(d.audio, d.audioIdx, t.audio, minBufferSize, v.state);
      PollMaskInside(false, d.audio, d.audioIdx, t.audio, minBufferSize, v.state, Owned(d));
      assert r.state == a.state;
    }
  }

  /** Without a stop(), the render paths keep the bit of every track other
      than the ones they serve. */
  lemma RenderKeepsOtherBits(d: Decoders, t: Tick, minBufferSize: (int, int, int) -> int, s0: RenderState, j: int)
    requires d.video.Some? ==> j % 32 != d.videoIdx % 32
    requires d.audio.Some? ==> j % 32 != d.audioIdx % 32
    ensures Has(RenderPaths(d, t, minBufferSize, s0).state.mask, j) <==> Has(s0.mask, j)
  {
    var v := VideoPoll(d.video, d.videoIdx, t.video, s0);
    PollClearsOnlyItsTrack(true, d.video, d.videoIdx, t.video, minBufferSize, s0, j);
    if d.video.None? {
      assert v.state == s0;
    }
    if !v.failed {
      var a := AudioPoll(d.audio, d.audioIdx, t.audio, minBufferSize, v.state);
      PollClearsOnlyItsTrack(false, d.audio, d.audioIdx, t.audio, minBufferSize, v.state, j);
      if d.audio.None? {
        assert a.state == v.state;
      }
      assert RenderPaths(d, t, minBufferSize, s0).state == a.state;
    }
  }

  /** The shared BufferInfo: when the video poll drains the end-of-stream
      buffer and the audio poll then returns no buffer, the audio path reads
      the video buffer's flag and reports the end of the audio track too, so
      both bits are cleared in the same pass. */
  lemma SharedInfoEndsAudio(d: Decoders, t: Tick, minBufferSize: (int, int, int) -> int, s0: RenderState)
    requires d.video.Some? && d.audio.Some? && d.videoIdx % 32 != d.audioIdx % 32
    requires t.video.OutputBuffer? && EndOfStream(t.video.info.flags)
    requires t.audio.TryAgainLater?
    ensures var r := RenderPaths(d, t, minBufferSize, s0);
      !r.failed && !Has(r.state.mask, d.videoIdx) && !Has(r.state.mask, d.audioIdx)
  {
    var v := VideoPoll(d.video, d.videoIdx, t.video, s0);
    PollClearsOnlyItsTrack(true, d.video, d.videoIdx, t.video, minBufferSize, s0, d.audioIdx);
    var a := AudioPoll(d.audio, d.audioIdx, t.audio, minBufferSize, v.state);
    PollClearsOnlyItsTrack(false, d.audio, d.audioIdx, t.audio, minBufferSize, v.state, d.videoIdx);
    assert v.ended && a.ended;
    assert RenderPaths(d, t, minBufferSize, s0).state == a.state;
  }

  /** The result of one pass of playbackLoop's `while (true)`: how it left
      the loop (Running when it goes round again), the extractor, the render
      state and the calls it made. */
  datatype Outcome = Outcome(exit: Exit, extractor: Extractor, state: RenderState, calls: seq<Call>)

  /** One pass: the `when` on the current sample's track returns on -1, else
      feeds the matching decoder (an input poll that throws leaves the loop);
      then the two render paths (an exception there leaves the loop); then a
      stop() from another thread, taken to land here, clears the mask; then
      the loop is left when the mask is empty or the thread was interrupted. */
  function Iteration(d: Decoders, t: Tick, minBufferSize: (int, int, int) -> int,
                     e0: Extractor, s0: RenderState): (o: Outcome)
    ensures NoTeardown(o.calls)
    ensures o.extractor == e0 || o.extractor == e0.Advance()
  {
    var track := e0.SampleTrackIndex();
    var dec := InputDecoder(d, track);
    if EndsSamples(d, track) then Outcome(EndOfSamples, e0, s0, [])
    else if dec.Some? && t.input.InputThrows? then Outcome(Faulted, e0, s0, [])
    else
      var e1 := if dec.Some? && Queues(t.input) then e0.Advance() else e0;
      var fed := if dec.Some? then InputCalls(dec.value, t.input, e0) else [];
      var r := RenderPaths(d, t, minBufferSize, s0);
      NoTeardownConcat(fed, r.calls);
      if r.failed then Outcome(Faulted, e1, r.state, fed + r.calls)
      else
        var s1 := if t.stopRequested then r.state.(mask := {}) else r.state;
        Outcome(if s1.mask == {} then NoActiveTracks else if t.interrupted then Interrupted else Running,
                e1, s1, fed + r.calls)
  }

  /** A pass leaves the loop for one of the source's reasons: -1 from
      sampleTrackIndex (before any rendering: nothing is called and the
      state is untouched, and the extractor stays exhausted), an empty mask,
      an interrupt with tracks still active, or an exception from one of its
      polls, exactly when one of them throws; and it goes round again only
      with tracks still active and no interrupt. */
  lemma IterationExit(d: Decoders, t: Tick, minBufferSize: (int, int, int) -> int, e0: Extractor, s0: RenderState)
    ensures var o := Iteration(d, t, minBufferSize, e0, s0);
      && (o.exit == EndOfSamples <==> EndsSamples(d, e0.SampleTrackIndex()))
      && (o.exit == EndOfSamples ==> o.extractor.SampleTrackIndex() == -1 && o.state == s0 && o.calls == [])
      && (o.exit == NoActiveTracks ==> o.state.mask == {})
      && (o.exit == Interrupted ==> t.interrupted && o.state.mask != {})
      && (o.exit == Faulted ==> MayThrow(t, minBufferSize))
      && (o.exit == Faulted <==>
            var track := e0.SampleTrackIndex();
            && !EndsSamples(d, track)
            && ((InputDecoder(d, track).Some? && t.input.InputThrows?) || RenderPaths(d, t, minBufferSize, s0).failed))
      && (o.exit == Running ==> o.state.mask != {} && !t.interrupted)
  {
  }

  /** Once the extractor has been advanced past every sample, a pass returns
      on -1 before touching anything, whatever the replies: an index slot
      holds a track index or -2, never -1. */
  lemma {:induction false} ExhaustedEndsLoop(d: Decoders, t: Tick, minBufferSize: (int, int, int) -> int,
                                             e: Extractor, n: nat, s0: RenderState)
    requires d.videoIdx != -1 && d.audioIdx != -1
    requires n >= |e.Remaining()|
    ensures var o := Iteration(d, t, minBufferSize, AdvanceTimes(e, n), s0);
      o.exit == EndOfSamples && o.state == s0 && o.calls == []
  {
    AdvanceTimesDrops(e, n);
  }

  /** A stop() observed in a pass that does not throw ends the loop in that
      pass, with an empty mask. */
  lemma StopEndsLoop(d: Decoders, t: Tick, minBufferSize: (int, int, int) -> int, e0: Extractor, s0: RenderState)
    requires t.stopRequested && !MayThrow(t, minBufferSize)
    requires !EndsSamples(d, e0.SampleTrackIndex())
    ensures Iteration(d, t, minBufferSize, e0, s0).exit == NoActiveTracks
    ensures Iteration(d, t, minBufferSize, e0, s0).state.mask == {}
  {
  }

  /** A pass only ever clears mask bits. */
  lemma IterationOnlyClears(d: Decoders, t: Tick, minBufferSize: (int, int, int) -> int,
                            e0: Extractor, s0: RenderState)
    ensures Iteration(d, t, minBufferSize, e0, s0).state.mask <= s0.mask
  {
    RenderKeepsMaskInside(d, t, minBufferSize, s0);
  }

  /** Without a stop(), a pass clears only bits of tracks that own a decoder,
      and keeps the bit of every other track. */
  lemma IterationKeepsOthers(d: Decoders, t: Tick, minBufferSize: (int, int, int) -> int,
                             e0: Extractor, s0: RenderState, j: int)
    requires !t.stopRequested
    ensures var o := Iteration(d, t, minBufferSize, e0, s0);
      && s0.mask - Owned(d) <= o.state.mask
      && ((d.video.Some? ==> j % 32 != d.videoIdx % 32) && (d.audio.Some? ==> j % 32 != d.audioIdx % 32)
          ==> (Has(o.state.mask, j) <==> Has(s0.mask, j)))
  {
    var o := Iteration(d, t, minBufferSize, e0, s0);
    var r := RenderPaths(d, t, minBufferSize, s0);
    if o.state != s0 {
      assert o.state == r.state;
      RenderKeepsMaskInside(d, t, minBufferSize, s0);
      if (d.video.Some? ==> j % 32 != d.videoIdx % 32) && (d.audio.Some? ==> j % 32 != d.audioIdx % 32) {
        RenderKeepsOtherBits(d, t, minBufferSize, s0, j);
      }
    }
  }

  /** No stop() landed in the first n iterations. */
  predicate NoStopBefore(ticks: seq<Tick>, n: nat)
  {
    forall i :: 0 <= i < n && i < |ticks| ==> !ticks[i].stopRequested
  }

  /** What the passes of playbackLoop's `while (true)` did together: how the
      loop was left (Running when the ticks ran out first), how many passes
      it made, the extractor and render state they left and their calls. */
  datatype Run = Run(exit: Exit, steps: nat, extractor: Extractor, state: RenderState, calls: seq<Call>)

  /** The loop over one tick per pass: each pass starts from what the
      previous one left, and the first pass that does not go round again is
      the last. */
  function Passes(d: Decoders, ticks: seq<Tick>, minBufferSize: (int, int, int) -> int,
                  e: Extractor, s: RenderState): (r: Run)
    ensures r.steps <= |ticks|
    ensures r.exit == Running ==> r.steps == |ticks|
    ensures r.exit != Running ==> r.steps > 0
    ensures NoTeardown(r.calls)
    decreases |ticks|
  {
    if ticks == [] then Run(Running, 0, e, s, [])
    else
      var o := Iteration(d, ticks[0], minBufferSize, e, s);
      if o.exit != Running then Run(o.exit, 1, o.extractor, o.state, o.calls)
      else
        var r := Passes(d, ticks[1..], minBufferSize, o.extractor, o.state);
        NoTeardownConcat(o.calls, r.calls);
        Run(r.exit, r.steps + 1, r.extractor, r.state, o.calls + r.calls)
  }

  /** The loop leaves for one of the source's reasons, read off its last
      pass: -1 from sampleTrackIndex, an empty mask, an interrupt with
      tracks still active, or an exception, only on a tick with a throwing
      reply; and a loop still running after its last pass has tracks active
      and saw no interrupt. */
  lemma {:induction false} PassesExit(d: Decoders, ticks: seq<Tick>, minBufferSize: (int, int, int) -> int,
                                      e: Extractor, s: RenderState)
    ensures var r := Passes(d, ticks, minBufferSize, e, s);
      && (r.exit == EndOfSamples ==> r.extractor.SampleTrackIndex() == -1)
      && (r.exit == NoActiveTracks ==> r.state.mask == {})
      && (r.exit == Interrupted ==> ticks[r.steps - 1].interrupted && r.state.mask != {})
      && (r.exit == Faulted ==> MayThrow(ticks[r.steps - 1], minBufferSize))
      && (r.exit == Running && r.steps > 0 ==> r.state.mask != {} && !ticks[r.steps - 1].interrupted)
    decreases |ticks|
  {
    if ticks != [] {
      var o := Iteration(d, ticks[0], minBufferSize, e, s);
      IterationExit(d, ticks[0], minBufferSize, e, s);
      if o.exit == Running {
        var r := Passes(d, ticks[1..], minBufferSize, o.extractor, o.state);
        PassesExit(d, ticks[1..], minBufferSize, o.extractor, o.state);
        if r.steps > 0 {
          assert ticks[1..][r.steps - 1] == ticks[r.steps];
        }
      }
    }
  }

  /** A run that had made `steps` passes and `calls` before carrying on as
      `rest`. */
  function Resumed(steps: nat, calls: seq<Call>, rest: Run): Run
  {
    Run(rest.exit, steps + rest.steps, rest.extractor, rest.state, calls + rest.calls)
  }

  /** One more pass of a running loop: the run resumed before it is the
      pass followed by the run resumed after it, or the pass alone when it
      leaves the loop. */
  lemma ResumeStep(d: Decoders, ticks: seq<Tick>, steps: nat, calls: seq<Call>,
                   minBufferSize: (int, int, int) -> int, e: Extractor, s: RenderState)
    requires steps < |ticks|
    ensures var o := Iteration(d, ticks[steps], minBufferSize, e, s);
      var run := Resumed(steps, calls, Passes(d, ticks[steps..], minBufferSize, e, s));
      if o.exit != Running then run == Run(o.exit, steps + 1, o.extractor, o.state, calls + o.calls)
      else run == Resumed(steps + 1, calls + o.calls, Passes(d, ticks[steps + 1..], minBufferSize, o.extractor, o.state))
  {
    var o := Iteration(d, ticks[steps], minBufferSize, e, s);
    assert ticks[steps..][0] == ticks[steps];
    if o.exit == Running {
      assert ticks[steps..][1..] == ticks[steps + 1..];
      var rest := Passes(d, ticks[steps + 1..], minBufferSize, o.extractor, o.state);
      assert calls + (o.calls + rest.calls) == (calls + o.calls) + rest.calls;
    }
  }

  /** The loop only ever clears mask bits; and when no stop() landed in its
      passes, it clears only bits of tracks that own a decoder and keeps the
      bit of every other track. */
  lemma {:induction false} PassesMask(d: Decoders, ticks: seq<Tick>, minBufferSize: (int, int, int) -> int,
                                      e: Extractor, s: RenderState, j: int)
    ensures var r := Passes(d, ticks, minBufferSize, e, s);
      && r.state.mask <= s.mask
      && (NoStopBefore(ticks, r.steps) ==> s.mask - Owned(d) <= r.state.mask)
      && (NoStopBefore(ticks, r.steps) && (d.video.Some? ==> j % 32 != d.videoIdx % 32)
          && (d.audio.Some? ==> j % 32 != d.audioIdx % 32)
          ==> (Has(r.state.mask, j) <==> Has(s.mask, j)))
    decreases |ticks|
  {
    if ticks != [] {
      var o := Iteration(d, ticks[0], minBufferSize, e, s);
      var r := Passes(d, ticks, minBufferSize, e, s);
      IterationOnlyClears(d, ticks[0], minBufferSize, e, s);
      if NoStopBefore(ticks, r.steps) {
        assert !ticks[0].stopRequested;
        IterationKeepsOthers(d, ticks[0], minBufferSize, e, s, j);
      }
      if o.exit == Running {
        var r1 := Passes(d, ticks[1..], minBufferSize, o.extractor, o.state);
        PassesMask(d, ticks[1..], minBufferSize, o.extractor, o.state, j);
        if NoStopBefore(ticks, r.steps) {
          forall i | 0 <= i < r1.steps && i < |ticks[1..]|
            ensures !ticks[1..][i].stopRequested
          {
            assert ticks[1..][i] == ticks[i + 1];
          }
        }
      }
    }
  }

  /** Splitting the ticks anywhere gives the same run: a loop that is still
      running after the first part carries on from the state it left. */
  lemma {:induction false} PassesAppend(d: Decoders, ticks1: seq<Tick>, ticks2: seq<Tick>,
                                        minBufferSize: (int, int, int) -> int, e: Extractor, s: RenderState)
    ensures var p := Passes(d, ticks1, minBufferSize, e, s);
      var r := Passes(d, ticks1 + ticks2, minBufferSize, e, s);
      if p.exit != Running then r == p
      else
        var q := Passes(d, ticks2, minBufferSize, p.extractor, p.state);
        r == Run(q.exit, p.steps + q.steps, q.extractor, q.state, p.calls + q.calls)
    decreases |ticks1|
  {
    if ticks1 == [] {
      assert ticks1 + ticks2 == ticks2;
    } else {
      var o := Iteration(d, ticks1[0], minBufferSize, e, s);
      assert (ticks1 + ticks2)[0] == ticks1[0];
      if o.exit == Running {
        assert (ticks1 + ticks2)[1..] == ticks1[1..] + ticks2;
        PassesAppend(d, ticks1[1..], ticks2, minBufferSize, o.extractor, o.state);
        var p1 := Passes(d, ticks1[1..], minBufferSize, o.extractor, o.state);
        var q := Passes(d, ticks2, minBufferSize, p1.extractor, p1.state);
        assert o.calls + (p1.calls + q.calls) == (o.calls + p1.calls) + q.calls;
      }
    }
  }

  class YourPlayer {
    var videoDec: Option<Codec>
    var videoTrackIdx: int
    var audioDec: Option<Codec>
    var audioTrackIdx: int
    var audioTrack: Option<AudioSinkConfig>
    var extractor: Extractor
    var activeTracks: Mask
    /** Every call made on a collaborator during playback, in order. */
    var log: seq<Call>

    /** Each decoder slot holds a decoder of its own kind. */
    ghost predicate Valid()
      reads this
    {
      && (videoDec.Some? ==> Classify(videoDec.value.mime) == VideoKind)
      && (audioDec.Some? ==> Classify(audioDec.value.mime) == AudioKind)
    }

    constructor ()
      ensures Valid()
      ensures videoDec == None && videoTrackIdx == -2
      ensures audioDec == None && audioTrackIdx == -2
      ensures audioTrack == None && activeTracks == {}
      ensures extractor.Remaining() == [] && log == []
      ensures CurrentSlots() == Fresh()
    {
      videoDec, videoTrackIdx := None, -2;
      audioDec, audioTrackIdx := None, -2;
      audioTrack := None;
      extractor := Extractor([], 0);
      activeTracks := {};
      log := [];
    }

    /** The slots init writes, as one value. */
    function CurrentSlots(): Slots
      reads this
    {
      Slots(videoDec, videoTrackIdx, audioDec, audioTrackIdx, activeTracks)
    }

    /** init: opens the container and walks its tracks. A video or audio track
        gets a decoder, then its index slot and its mask bit; the last track of
        a kind wins. The first exception ends the walk and init reports false;
        what was done before it stays done. */
    method Init(source: Option<Container>) returns (ok: bool)
      requires Valid()
      modifies this`videoDec, this`videoTrackIdx, this`audioDec, this`audioTrackIdx,
               this`activeTracks, this`extractor
      ensures Valid()
      ensures source.None? ==> !ok && unchanged(this)
      ensures source.Some? ==>
        var ts := source.value.tracks;
        && ok == (FirstFailure(ts) == |ts|)
        && extractor.Remaining() == source.value.samples
        && CurrentSlots() == Walk(ts, Reached(ts), old(CurrentSlots()))
    {
      if source.None? {
        return false;
      }
      var ts := source.value.tracks;
      extractor := Opened(source.value.samples);
      var i := 0;
      while i < |ts|
        invariant 0 <= i <= FirstFailure(ts)
        invariant Valid()
        invariant extractor.Remaining() == source.value.samples
        invariant CurrentSlots() == Walk(ts, i, old(CurrentSlots()))
      {
        var passed := SetUpTrack(ts[i], i);
        if !passed {
          FailureIsFirst(ts, i);
          return false;
        }
        PassesBeforeFailure(ts, i);
        i := i + 1;
      }
      return true;
    }

    /** The body of init's loop for track i: read its MIME type and classify
        it; a video or audio track gets its decoder created (the slot is
        overwritten at once) and then set up and selected, which sets its
        index slot and ORs in its bit. Returns false where init would throw. */
    method SetUpTrack(t: Track, i: nat) returns (ok: bool)
      requires Valid()
      modifies this`videoDec, this`videoTrackIdx, this`audioDec, this`audioTrackIdx, this`activeTracks
      ensures Valid()
      ensures ok <==> !Fails(t)
      ensures CurrentSlots() == SetUp(old(CurrentSlots()), t, i)
    {
      var mime := GetString(t.format, KEY_MIME);
      ok := mime.Some?;
      if ok {
        var kind := Classify(mime.value);
        if kind == VideoKind {
          ok := t.setup != CreateFails;
          if ok {
            videoDec := Some(Codec(i, mime.value));
            ok := t.setup != ConfigureFails;
            if ok {
              videoTrackIdx := i;
              activeTracks := With(activeTracks, videoTrackIdx);
            }
          }
        } else if kind == AudioKind {
          ok := t.setup != CreateFails;
          if ok {
            audioDec := Some(Codec(i, mime.value));
            ok := t.setup != ConfigureFails;
            if ok {
              audioTrackIdx := i;
              activeTracks := With(activeTracks, audioTrackIdx);
            }
          }
        }
      }
    }

    /** processInputSample: with a slot index above 0 the current sample is
        queued (or, when the read yields no bytes, an empty end-of-stream
        buffer) and the extractor advances once; otherwise nothing happens. */
    method ProcessInputSample(dec: Codec, reply: InputReply) returns (failed: bool)
      modifies this`log, this`extractor
      ensures failed <==> reply.InputThrows?
      ensures extractor == if Queues(reply) then old(extractor).Advance() else old(extractor)
      ensures log == old(log) + InputCalls(dec, reply, old(extractor))
    {
      if reply.InputThrows? {
        return true;
      }
      var ibx := reply.index;
      if ibx > 0 {
        var sampleSize := extractor.ReadSampleData();
        if sampleSize > 0 {
          log := log + [QueueInput(dec, ibx, sampleSize, extractor.SampleTime(), 0)];
        } else {
          log := log + [QueueInput(dec, ibx, 0, 0, BUFFER_FLAG_END_OF_STREAM)];
        }
        extractor := extractor.Advance();
      }
      return false;
    }

    /** renderVideoSample: polls the decoder, releases a returned buffer for
        display; the result is false exactly when the shared buffer
        information carries the end-of-stream flag. */
    method RenderVideoSample(bi: BufferInfo, dec: Codec, reply: OutputReply) returns (more: bool, failed: bool)
      modifies this`log, bi
      ensures failed <==> reply.OutputThrows?
      ensures bi.Value() == InfoAfter(old(bi.Value()), reply)
      ensures !failed ==> (more <==> !EndOfStream(bi.flags))
      ensures log == old(log) + VideoCalls(dec, reply)
    {
      match reply {
        case OutputThrows =>
          return false, true;
        case OutputBuffer(obx, info) =>
          bi.Fill(info);
          log := log + [ReleaseOutput(dec, obx, 1000 * bi.presentationTimeUs)];
        case FormatChanged(_) =>
        case BuffersChanged =>
        case TryAgainLater =>
      }
      more := !EndOfStream(bi.flags);
      failed := false;
    }

    /** renderAudioSample: a format change builds the audio sink (none for an
        invalid channel mask), starts it and hands it to the MediaSync; a
        returned buffer is queued on the MediaSync. The result is false exactly
        when the shared buffer information carries the end-of-stream flag. */
    method RenderAudioSample(bi: BufferInfo, dec: Codec, reply: OutputReply, minBufferSize: (int, int, int) -> int)
      returns (more: bool, failed: bool)
      modifies this`log, this`audioTrack, bi
      ensures failed <==> AudioThrows(reply, minBufferSize)
      ensures bi.Value() == InfoAfter(old(bi.Value()), reply)
      ensures !failed ==> (more <==> !EndOfStream(bi.flags))
      ensures audioTrack ==
        if reply.FormatChanged? && !failed then BuildAudioTrack(reply.outputFormat, minBufferSize).value
        else old(audioTrack)
      ensures log == old(log) + AudioCalls(reply, minBufferSize)
    {
      match reply {
        case OutputThrows =>
          return false, true;
        case FormatChanged(format) =>
          var built := BuildAudioTrack(format, minBufferSize);
          if built.Err? {
            return false, true;
          }
          audioTrack := built.value;
          if audioTrack.Some? {
            log := log + [PlaySink(audioTrack.value)];
          }
          log := log + [SetSyncAudioTrack(audioTrack), SetSyncCallback];
        case BuffersChanged =>
        case TryAgainLater =>
        case OutputBuffer(obx, info) =>
          bi.Fill(info);
          log := log + [QueueAudio(obx, bi.presentationTimeUs)];
      }
      more := !EndOfStream(bi.flags);
      failed := false;
    }

    /** The decoder and index slots as one value. */
    function Decs(): Decoders
      reads this
    {
      Decoders(videoDec, videoTrackIdx, audioDec, audioTrackIdx)
    }

    /** The state the render paths change. */
    function Now(bi: BufferInfo): RenderState
      reads this, bi
    {
      RenderState(bi.Value(), audioTrack, activeTracks)
    }

    /** The first part of a pass: the `when` on the current sample's track. */
    method Feed(input: InputReply) returns (atEnd: bool, failed: bool)
      modifies this`log, this`extractor
      ensures var track := old(extractor).SampleTrackIndex();
        var dec := InputDecoder(Decs(), track);
        && atEnd == EndsSamples(Decs(), track)
        && (failed <==> dec.Some? && input.InputThrows?)
        && extractor == (if dec.Some? && Queues(input) then old(extractor).Advance() else old(extractor))
        && log == old(log) + (if dec.Some? then InputCalls(dec.value, input, old(extractor)) else [])
    {
      var track := extractor.SampleTrackIndex();
      atEnd, failed := false, false;
      if track == videoTrackIdx {
        if videoDec.Some? {
          failed := ProcessInputSample(videoDec.value, input);
        }
      } else if track == audioTrackIdx {
        if audioDec.Some? {
          failed := ProcessInputSample(audioDec.value, input);
        }
      } else if track == -1 {
        atEnd := true;
      }
    }

    /** The video render path of a pass: with a video decoder, render and
        clear the video track's bit when it reports its end. */
    method PollVideo(bi: BufferInfo, reply: OutputReply) returns (failed: bool)
      modifies this`log, this`activeTracks, bi
      ensures var r := VideoPoll(videoDec, videoTrackIdx, reply, old(Now(bi)));
        && failed == r.failed && Now(bi) == r.state && log == old(log) + r.calls
    {
      failed := false;
      if videoDec.Some? {
        var more;
        more, failed := RenderVideoSample(bi, videoDec.value, reply);
        if !failed && !more {
          activeTracks := Without(activeTracks, videoTrackIdx);
        }
      }
    }

    /** The audio render path of a pass, like PollVideo. */
    method PollAudio(bi: BufferInfo, reply: OutputReply, minBufferSize: (int, int, int) -> int)
      returns (failed: bool)
      modifies this`log, this`activeTracks, this`audioTrack, bi
      ensures var r := AudioPoll(audioDec, audioTrackIdx, reply, minBufferSize, old(Now(bi)));
        && failed == r.failed && Now(bi) == r.state && log == old(log) + r.calls
    {
      failed := false;
      if audioDec.Some? {
        var more;
        more, failed := RenderAudioSample(bi, audioDec.value, reply, minBufferSize);
        if !failed && !more {
          activeTracks := Without(activeTracks, audioTrackIdx);
        }
      }
    }

    /** The two render paths of a pass. */
    method Render(bi: BufferInfo, t: Tick, minBufferSize: (int, int, int) -> int) returns (failed: bool)
      modifies this`log, this`audioTrack, this`activeTracks, bi
      ensures var r := RenderPaths(Decs(), t, minBufferSize, old(Now(bi)));
        && failed == r.failed && Now(bi) == r.state && log == old(log) + r.calls
    {
      ghost var log0 := log;
      failed := PollVideo(bi, t.video);
      ghost var vCalls := log[|log0|..];
      assert log == log0 + vCalls;
      if !failed {
        ghost var log1 := log;
        failed := PollAudio(bi, t.audio, minBufferSize);
        ghost var aCalls := log[|log1|..];
        assert log == log1 + aCalls;
        AppendAssoc(log0, vCalls, aCalls);
      }
    }

    /** One pass of playbackLoop's `while (true)`. A stop() from another
        thread is taken to land just before the mask check. */
    method Step(bi: BufferInfo, t: Tick, minBufferSize: (int, int, int) -> int)
      returns (exit: Exit)
      modifies this`log, this`extractor, this`audioTrack, this`activeTracks, bi
      ensures var o := Iteration(Decs(), t, minBufferSize, old(extractor), old(Now(bi)));
        && exit == o.exit && extractor == o.extractor && Now(bi) == o.state && log == old(log) + o.calls
    {
      ghost var log0 := log;
      var atEnd, failed := Feed(t.input);
      if atEnd {
        return EndOfSamples;
      }
      if failed {
        return Faulted;
      }
      ghost var log1 := log;
      failed := Render(bi, t, minBufferSize);
      ghost var rCalls := log[|log1|..];
      assert log == log1 + rCalls;
      AppendAssoc(log0, log1[|log0|..], rCalls);
      if failed {
        return Faulted;
      }
      if t.stopRequested {
        Stop();
      }
      if activeTracks == {} {
        exit := NoActiveTracks;
      } else if t.interrupted {
        exit := Interrupted;
      } else {
        exit := Running;
      }
    }

    /** The `finally` block: release the MediaSync, stop and release each
        decoder that exists, release the extractor, one call after the other,
        so a call that throws skips all later ones. */
    method Teardown(fault: Option<nat>) returns (ok: bool)
      modifies this`log
      ensures log == old(log) + Attempted(TeardownCalls(videoDec, audioDec), fault)
      ensures ok <==> !Throws(TeardownCalls(videoDec, audioDec), fault)
    {
      ghost var tail := CodecTeardown(videoDec) + (CodecTeardown(audioDec) + [ReleaseExtractor]);
      AttemptedConcat([ReleaseSync], tail, fault);
      ok := Invoke(ReleaseSync, fault);
      if ok {
        ghost var log1 := log;
        ok := ReleaseDecodersAndExtractor(Shift(fault, 1));
        AppendAssoc(old(log), [ReleaseSync], Attempted(tail, Shift(fault, 1)));
      }
    }

    /** The `finally` block after the MediaSync: each decoder's stop and
        release, video first, then the extractor. */
    method ReleaseDecodersAndExtractor(fault: Option<nat>) returns (ok: bool)
      modifies this`log
      ensures var calls := CodecTeardown(videoDec) + (CodecTeardown(audioDec) + [ReleaseExtractor]);
        log == old(log) + Attempted(calls, fault) && (ok <==> !Throws(calls, fault))
    {
      ghost var tail := CodecTeardown(audioDec) + [ReleaseExtractor];
      AttemptedConcat(CodecTeardown(videoDec), tail, fault);
      ok := ReleaseCodec(videoDec, fault);
      if ok {
        ok := ReleaseAudioAndExtractor(Shift(fault, |CodecTeardown(videoDec)|));
        AppendAssoc(old(log), CodecTeardown(videoDec), Attempted(tail, Shift(fault, |CodecTeardown(videoDec)|)));
      }
    }

    /** The last calls of the `finally` block: the audio decoder's stop and
        release, then the extractor's release. */
    method ReleaseAudioAndExtractor(fault: Option<nat>) returns (ok: bool)
      modifies this`log
      ensures var calls := CodecTeardown(audioDec) + [ReleaseExtractor];
        log == old(log) + Attempted(calls, fault) && (ok <==> !Throws(calls, fault))
    {
      AttemptedConcat(CodecTeardown(audioDec), [ReleaseExtractor], fault);
      ok := ReleaseCodec(audioDec, fault);
      if ok {
        ok := Invoke(ReleaseExtractor, Shift(fault, |CodecTeardown(audioDec)|));
        AppendAssoc(old(log), CodecTeardown(audioDec), Attempted([ReleaseExtractor], Shift(fault, |CodecTeardown(audioDec)|)));
      }
    }

    /** `dec?.stop(); dec?.release()`, the second call skipped when the
        first throws. */
    method ReleaseCodec(dec: Option<Codec>, fault: Option<nat>) returns (ok: bool)
      modifies this`log
      ensures log == old(log) + Attempted(CodecTeardown(dec), fault)
      ensures ok <==> !Throws(CodecTeardown(dec), fault)
    {
      ok := true;
      if dec.Some? {
        ok := Invoke(StopDecoder(dec.value), fault);
        if ok {
          ok := Invoke(ReleaseDecoder(dec.value), Shift(fault, 1));
        }
      }
    }

    /** Makes call c, which throws when the fault position has come down to
        it. */
    method Invoke(c: Call, fault: Option<nat>) returns (ok: bool)
      modifies this`log
      ensures log == old(log) + [c]
      ensures ok <==> fault != Some(0)
    {
      log := log + [c];
      ok := fault != Some(0);
    }

    /** playbackLoop: runs the passes of its `try` block, which are Passes
        from the player's state and a fresh BufferInfo, and then, whenever
        they left the loop (by a return or an exception caught), the
        `finally` block's teardown. The supplied ticks bound the run: when
        they run out the loop is still Running and no teardown has happened.
        `loopCalls` is what the passes add to the log. */
    method PlaybackLoop(ticks: seq<Tick>, minBufferSize: (int, int, int) -> int, teardownFault: Option<nat>)
      returns (exit: Exit, steps: nat, teardownOk: bool, ghost loopCalls: seq<Call>)
      requires Valid()
      modifies this`log, this`extractor, this`audioTrack, this`activeTracks
      ensures Valid()
      ensures var r := Passes(Decs(), ticks, minBufferSize, old(extractor),
                              RenderState(Info(0, 0, 0, 0), old(audioTrack), old(activeTracks)));
        && exit == r.exit && steps == r.steps && extractor == r.extractor
        && audioTrack == r.state.audioTrack && activeTracks == r.state.mask && loopCalls == r.calls
      ensures steps <= |ticks|
      ensures exit == Running ==> steps == |ticks| && teardownOk
      ensures exit != Running ==> steps > 0
      ensures exit == Running && steps > 0 ==> activeTracks != {} && !ticks[steps - 1].interrupted
      ensures exit == EndOfSamples ==> extractor.SampleTrackIndex() == -1
      ensures exit == NoActiveTracks ==> activeTracks == {}
      ensures exit == Interrupted ==> ticks[steps - 1].interrupted && activeTracks != {}
      ensures exit == Faulted ==> MayThrow(ticks[steps - 1], minBufferSize)
      ensures activeTracks <= old(activeTracks)
      ensures NoStopBefore(ticks, steps) ==> old(activeTracks) - Owned(Decs()) <= activeTracks
      ensures NoTeardown(loopCalls)
      ensures exit == Running ==> log == old(log) + loopCalls
      ensures exit != Running ==>
        log == old(log) + loopCalls + Attempted(TeardownCalls(videoDec, audioDec), teardownFault)
      ensures teardownOk <==> exit == Running || !Throws(TeardownCalls(videoDec, audioDec), teardownFault)
    {
      ghost var s0 := RenderState(Info(0, 0, 0, 0), audioTrack, activeTracks);
      exit, steps, loopCalls := RunPasses(ticks, minBufferSize);
      PassesExit(Decs(), ticks, minBufferSize, old(extractor), s0);
      PassesMask(Decs(), ticks, minBufferSize, old(extractor), s0, 0);
      if exit != Running {
        teardownOk := Teardown(teardownFault);
      } else {
        teardownOk := true;
      }
    }

    /** The `try` block of playbackLoop: passes of its `while (true)` over
        one fresh BufferInfo until a pass leaves the loop or the ticks run
        out; what they do is Passes from the player's state. */
    method RunPasses(ticks: seq<Tick>, minBufferSize: (int, int, int) -> int)
      returns (exit: Exit, steps: nat, ghost loopCalls: seq<Call>)
      modifies this`log, this`extractor, this`audioTrack, this`activeTracks
      ensures var r := Passes(Decs(), ticks, minBufferSize, old(extractor),
                              RenderState(Info(0, 0, 0, 0), old(audioTrack), old(activeTracks)));
        && exit == r.exit && steps == r.steps && extractor == r.extractor
        && audioTrack == r.state.audioTrack && activeTracks == r.state.mask && loopCalls == r.calls
      ensures log == old(log) + loopCalls
    {
      var bi := new BufferInfo();
      ghost var d, e, s := Decs(), extractor, Now(bi);
      ghost var run := Passes(d, ticks, minBufferSize, e, s);
      exit, steps := Running, 0;
      loopCalls := [];
      while steps < |ticks| && exit == Running
        invariant steps <= |ticks| && Decs() == d
        invariant exit == Running ==> run == Resumed(steps, loopCalls, Passes(d, ticks[steps..], minBufferSize, extractor, Now(bi)))
        invariant exit != Running ==> run == Run(exit, steps, extractor, Now(bi), loopCalls)
        invariant log == old(log) + loopCalls
      {
        ghost var o := Iteration(d, ticks[steps], minBufferSize, extractor, Now(bi));
        ResumeStep(d, ticks, steps, loopCalls, minBufferSize, extractor, Now(bi));
        exit := Step(bi, ticks[steps], minBufferSize);
        AppendAssoc(old(log), loopCalls, o.calls);
        loopCalls := loopCalls + o.calls;
        steps := steps + 1;
      }
      if exit == Running {
        assert ticks[steps..] == [] && loopCalls + [] == loopCalls;
      }
    }

    /** stop: clears the whole mask; a second call changes nothing. */
    method Stop()
      modifies this`activeTracks
      ensures activeTracks == {}
    {
      activeTracks := {};
    }
  }
}
