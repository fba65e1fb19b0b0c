/** The decoder collaborator as the player sees it: decoder handles, the replies
    of its dequeue calls (supplied, since decoding is foreign), and the calls
    the player makes on the platform, including the teardown sequence. */
module Codecs {
  import opened MediaFormats

  /** MediaCodec.BUFFER_FLAG_END_OF_STREAM */
  const BUFFER_FLAG_END_OF_STREAM: bv32 := 4

  /** The decoder that createDecoderByType(mime) returned while the player was
      looking at track `track`. */
  datatype Codec = Codec(track: nat, mime: string)

  /** The fields of a MediaCodec.BufferInfo as a decoder fills them in. */
  datatype Info = Info(offset: int, size: int, presentationTimeUs: int, flags: bv32)

  predicate EndOfStream(flags: bv32)
  {
    flags & BUFFER_FLAG_END_OF_STREAM != 0
  }

  /** What dequeueInputBuffer(0) does: return a slot index (negative when no
      slot is free) or throw. */
  datatype InputReply = InputSlot(index: int) | InputThrows

  /** What dequeueOutputBuffer(bi, 1000) does. Only a buffer index comes with
      buffer information written into `bi`; the three INFO_ codes leave `bi`
      as it was. FormatChanged carries what `outputFormat` then returns. */
  datatype OutputReply =
    | OutputBuffer(index: nat, info: Info)
    | FormatChanged(outputFormat: Format)
    | BuffersChanged
    | TryAgainLater
    | OutputThrows

  /** The foreign events of one loop iteration: the replies of the input and
      output polls, whether stop() ran on another thread before the liveness
      check, and whether the thread was interrupted. */
  datatype Tick = Tick(
    input: InputReply,
    video: OutputReply,
    audio: OutputReply,
    stopRequested: bool,
    interrupted: bool)

  /** The calls the player makes on its collaborators, in the order made. */
  datatype Call =
    | QueueInput(dec: Codec, slot: int, size: int, timeUs: int, flags: bv32)
    | ReleaseOutput(dec: Codec, index: nat, renderTimeNs: int)
    | PlaySink(config: AudioSinkConfig)
    | SetSyncAudioTrack(sink: Option<AudioSinkConfig>)
    | SetSyncCallback
    | QueueAudio(bufferId: nat, timeUs: int)
    | ReleaseSync
    | StopDecoder(dec: Codec)
    | ReleaseDecoder(dec: Codec)
    | ReleaseExtractor

  predicate IsTeardown(c: Call)
  {
    c.ReleaseSync? || c.StopDecoder? || c.ReleaseDecoder? || c.ReleaseExtractor?
  }

  predicate NoTeardown(s: seq<Call>)
  {
    forall i :: 0 <= i < |s| ==> !IsTeardown(s[i])
  }

  lemma NoTeardownConcat(a: seq<Call>, b: seq<Call>)
    requires NoTeardown(a) && NoTeardown(b)
    ensures NoTeardown(a + b)
  {
    forall i | 0 <= i < |a + b| ensures !IsTeardown((a + b)[i]) {
      if i >= |a| {
        assert (a + b)[i] == b[i - |a|];
      }
    }
  }

  lemma AppendAssoc(a: seq<Call>, b: seq<Call>, c: seq<Call>)
    ensures a + (b + c) == (a + b) + c
  {
  }

  /** `dec?.stop(); dec?.release()`: both calls when the decoder exists,
      none otherwise. */
  function CodecTeardown(dec: Option<Codec>): (r: seq<Call>)
    ensures |r| == if dec.Some? then 2 else 0
  {
    if dec.Some? then [StopDecoder(dec.value), ReleaseDecoder(dec.value)] else []
  }

  /** The `finally` block's calls: the MediaSync, then stop and release of each
      decoder that exists, video first, then the extractor. */
  function TeardownCalls(video: Option<Codec>, audio: Option<Codec>): (r: seq<Call>)
    ensures |r| == 2 + (if video.Some? then 2 else 0) + (if audio.Some? then 2 else 0)
  {
    [ReleaseSync] + (CodecTeardown(video) + (CodecTeardown(audio) + [ReleaseExtractor]))
  }

  /** The order of the teardown: the MediaSync first, the extractor last, the
      video decoder's pair before the audio decoder's, and nothing but
      teardown calls. */
  lemma TeardownOrder(video: Option<Codec>, audio: Option<Codec>)
    ensures var r := TeardownCalls(video, audio);
      && r[0] == ReleaseSync && r[|r| - 1] == ReleaseExtractor
      && (video.Some? ==> r[1] == StopDecoder(video.value) && r[2] == ReleaseDecoder(video.value))
      && (audio.Some? ==> r[|r| - 3] == StopDecoder(audio.value) && r[|r| - 2] == ReleaseDecoder(audio.value))
      && forall i :: 0 <= i < |r| ==> IsTeardown(r[i])
  {
  }

  /** The calls of a sequence that are actually made when the one at position
      `fault` throws: that call and those before it; the rest are skipped. */
  function Attempted(calls: seq<Call>, fault: Option<nat>): (r: seq<Call>)
    ensures fault.None? || fault.value >= |calls| ==> r == calls
    ensures fault.Some? && fault.value < |calls| ==> r == calls[..fault.value + 1]
  {
    if fault.Some? && fault.value < |calls| then calls[..fault.value + 1] else calls
  }

  /** Whether the call at position `fault` of the sequence throws. */
  predicate Throws(calls: seq<Call>, fault: Option<nat>)
  {
    fault.Some? && fault.value < |calls|
  }

  /** What is left of a fault position once k calls have returned. */
  function Shift(fault: Option<nat>, k: nat): (r: Option<nat>)
    ensures r.Some? <==> fault.Some? && fault.value >= k
    ensures r.Some? ==> r.value + k == fault.value
  {
    if fault.Some? && fault.value >= k then Some(fault.value - k) else None
  }

  /** Running two call sequences one after the other: the second is reached
      only when no call of the first throws, and its fault position is then
      counted from its own start. */
  lemma AttemptedConcat(a: seq<Call>, b: seq<Call>, fault: Option<nat>)
    ensures Throws(a + b, fault) <==> Throws(a, fault) || Throws(b, Shift(fault, |a|))
    ensures Attempted(a + b, fault)
      == if Throws(a, fault) then Attempted(a, fault) else a + Attempted(b, Shift(fault, |a|))
  {
    if Throws(a, fault) {
      assert (a + b)[..fault.value + 1] == a[..fault.value + 1];
    } else if Throws(b, Shift(fault, |a|)) {
      assert (a + b)[..fault.value + 1] == a + b[..fault.value - |a| + 1];
    }
  }

  /** How many times call c occurs in s. */
  function Count(s: seq<Call>, c: Call): nat
  {
    if s == [] then 0 else (if s[0] == c then 1 else 0) + Count(s[1..], c)
  }

  lemma {:induction false} CountAppend(a: seq<Call>, b: seq<Call>, c: Call)
    ensures Count(a + b, c) == Count(a, c) + Count(b, c)
  {
    if a == [] {
      assert a + b == b;
    } else {
      assert (a + b)[0] == a[0];
      assert (a + b)[1..] == a[1..] + b;
      CountAppend(a[1..], b, c);
    }
  }

  lemma {:induction false} CountAbsent(s: seq<Call>, c: Call)
    requires forall i :: 0 <= i < |s| ==> s[i] != c
    ensures Count(s, c) == 0
  {
    if s != [] {
      CountAbsent(s[1..], c);
    }
  }

  lemma CountOne(x: Call, c: Call)
    ensures Count([x], c) == if x == c then 1 else 0
  {
    assert [x][1..] == [];
  }

  /** Count of c in a decoder's stop-and-release pair, or in nothing. */
  lemma CountDecoderCalls(d: Option<Codec>, c: Call)
    ensures var ds := if d.Some? then [StopDecoder(d.value), ReleaseDecoder(d.value)] else [];
      Count(ds, c) == if d.Some? && (c == StopDecoder(d.value) || c == ReleaseDecoder(d.value)) then 1 else 0
  {
    if d.Some? {
      assert [StopDecoder(d.value), ReleaseDecoder(d.value)] == [StopDecoder(d.value)] + [ReleaseDecoder(d.value)];
      CountAppend([StopDecoder(d.value)], [ReleaseDecoder(d.value)], c);
      CountOne(StopDecoder(d.value), c);
      CountOne(ReleaseDecoder(d.value), c);
    }
  }

  /** A completed teardown after loop calls releases the MediaSync and the
      extractor exactly once, and stops and releases each decoder exactly once. */
  lemma TeardownOnce(body: seq<Call>, video: Option<Codec>, audio: Option<Codec>)
    requires video.Some? && audio.Some? ==> video.value != audio.value
    requires NoTeardown(body)
    ensures var log := body + TeardownCalls(video, audio);
      && Count(log, ReleaseSync) == 1
      && Count(log, ReleaseExtractor) == 1
      && (video.Some? ==> Count(log, StopDecoder(video.value)) == 1 && Count(log, ReleaseDecoder(video.value)) == 1)
      && (audio.Some? ==> Count(log, StopDecoder(audio.value)) == 1 && Count(log, ReleaseDecoder(audio.value)) == 1)
  {
    var vs := if video.Some? then [StopDecoder(video.value), ReleaseDecoder(video.value)] else [];
    var aus := if audio.Some? then [StopDecoder(audio.value), ReleaseDecoder(audio.value)] else [];
    assert TeardownCalls(video, audio) == [ReleaseSync] + vs + aus + [ReleaseExtractor];
    forall c | IsTeardown(c)
      ensures Count(body + TeardownCalls(video, audio), c)
        == Count([ReleaseSync], c) + Count(vs, c) + Count(aus, c) + Count([ReleaseExtractor], c)
    {
      CountAbsent(body, c);
      CountAppend(body, [ReleaseSync] + vs + aus + [ReleaseExtractor], c);
      CountAppend([ReleaseSync] + vs + aus, [ReleaseExtractor], c);
      CountAppend([ReleaseSync] + vs, aus, c);
      CountAppend([ReleaseSync], vs, c);
    }
    forall c | IsTeardown(c)
      ensures Count([ReleaseSync], c) == (if c == ReleaseSync then 1 else 0)
      ensures Count([ReleaseExtractor], c) == (if c == ReleaseExtractor then 1 else 0)
      ensures Count(vs, c) == if video.Some? && (c == StopDecoder(video.value) || c == ReleaseDecoder(video.value)) then 1 else 0
      ensures Count(aus, c) == if audio.Some? && (c == StopDecoder(audio.value) || c == ReleaseDecoder(audio.value)) then 1 else 0
    {
      CountOne(ReleaseSync, c);
      CountOne(ReleaseExtractor, c);
      CountDecoderCalls(video, c);
      CountDecoderCalls(audio, c);
    }
  }

  /** Teardown is not best-effort: when any call before the last throws, the
      extractor is never released. */
  lemma FaultSkipsExtractorRelease(video: Option<Codec>, audio: Option<Codec>, k: nat)
    requires k < |TeardownCalls(video, audio)| - 1
    ensures ReleaseExtractor !in Attempted(TeardownCalls(video, audio), Some(k))
  {
    var t := TeardownCalls(video, audio);
    assert forall i :: 0 <= i < |t| - 1 ==> t[i] != ReleaseExtractor;
  }
}
