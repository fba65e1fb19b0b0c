# LoveYourPlayer playback engine in Dafny

A model of `YourPlayer`, the Android media player engine of LoveYourPlayer,
with its `MediaFormat.channelMask` property. The engine opens a container
with a `MediaExtractor` and creates, configures and starts a `MediaCodec`
decoder for every video track and every audio track. Each decoder slot keeps
only the last decoder of its kind; the earlier ones are never released. It
marks each selected track live in a 32-bit mask, `activeTracks`. `playbackLoop` then feeds compressed samples to
the decoder of the current sample's track. It polls both render paths, which
release video frames for display and queue audio on a `MediaSync`. A track's
bit is cleared once its path sees end of stream. The loop leaves when the
extractor is exhausted, the mask is empty, the thread is interrupted or an
exception is caught. Its `finally` block then releases the sync, the
decoders and the extractor. `stop()` clears the mask from another thread.

Files:

- `media_format.dfy` (module `MediaFormats`): `MediaFormat` as two maps, the
  `channelMask` getter and `buildAudioTrack`'s validity gate. The
  `AudioTrack` is modelled as the configuration handed to its builder.
- `extractor.dfy` (module `Extraction`): the extractor, as the interleaved
  samples of the selected tracks plus a cursor. `sampleTrackIndex` is `-1`
  once the samples are exhausted.
- `codec.dfy` (module `Codecs`): decoder handles, `BufferInfo` contents, the
  replies of the dequeue calls, and the log of calls the player makes. It
  also holds the teardown sequence and what a throwing teardown call skips.
- `track_mask.dfy` (module `TrackMask`): the `activeTracks` Int, seen as the
  set of positions of its one bits.
- `track_selection.dfy` (module `TrackSelection`): what `init` does to each
  track, as a function of the track list.
- `player.dfy` (module `Player`): the `YourPlayer` class and its methods.
  Each method is proved equal to a function: one render path (`VideoPoll`,
  `AudioPoll`), both paths (`RenderPaths`), one pass of the loop
  (`Iteration`) or the whole loop (`Passes`, the passes folded from a fresh
  `BufferInfo` up to the first that leaves). The lemmas about those
  functions state the loop's guarantees.

Collaborators are data:

- Each `dequeueInputBuffer`/`dequeueOutputBuffer` reply of a pass is supplied
  in a `Tick`. So are a `stop()` landing before the liveness check and the
  interrupt flag.
- Each track's decoder set-up outcome is supplied in its `Track`.
- `AudioTrack.getMinBufferSize` is a function parameter.
- Which teardown call throws, if any, is a parameter.
- Every call on a collaborator is appended to the field `log`.

The four points where the code departs from the obvious design are kept:

- `ibx > 0` passes over input slot 0 (`Queues`).
- One `BufferInfo` is shared by both render paths. The end-of-stream test
  reads it whatever the poll returned, so a video end-of-stream buffer
  followed by an audio `INFO_TRY_AGAIN_LATER` ends the audio track too
  (`SharedInfoEndsAudio`).
- `1 shl i` takes `i` modulo 32 (`Bit`), so tracks 32 apart share a bit
  (`AliasedTracksClearTogether`).
- The `finally` block is sequential, so a throwing call skips every later
  release (`FaultSkipsExtractorRelease`). The resources are not released
  independently of one another: a failed `mediaSync.release()` leaves both
  decoders and the extractor unreleased.

## Model

| member | source | states |
|---|---|---|
| MediaFormats.ChannelMask | app/src/main/java/com/simplypatrick/loveyourplayer/YourPlayer.kt:15-27 | an explicit channel mask is returned whatever its value; otherwise channel count 2 gives stereo, 6 gives 5.1, any other count gives CHANNEL_INVALID, and a missing count throws |
| MediaFormats.BuildAudioTrack | app/src/main/java/com/simplypatrick/loveyourplayer/YourPlayer.kt:127-151 | throws exactly when the sample rate, the channel mask or (for a valid mask) the PCM encoding is missing; returns no sink exactly when the mask is CHANNEL_INVALID; otherwise the sink has content type movie, the format's rate, mask and encoding, the platform minimum buffer size and stream mode |
| MediaFormats.UnsupportedCountBuildsNoSink | app/src/main/java/com/simplypatrick/loveyourplayer/YourPlayer.kt:22-25 | a format without a channel mask whose channel count is neither 2 nor 6 yields no audio sink |
| Extraction.AdvanceTimesDrops | app/src/main/java/com/simplypatrick/loveyourplayer/YourPlayer.kt:98 | n advances drop exactly the first n remaining samples, after which sampleTrackIndex is -1 |
| TrackSelection.Classify | app/src/main/java/com/simplypatrick/loveyourplayer/YourPlayer.kt:53-68 | a track is video exactly when its MIME type starts with "video/", audio exactly when it starts with "audio/" |
| TrackSelection.Fails | app/src/main/java/com/simplypatrick/loveyourplayer/YourPlayer.kt:52-76 | a track that does not throw has a MIME type, and is selected exactly when that type is video or audio |
| TrackSelection.SetUp | app/src/main/java/com/simplypatrick/loveyourplayer/YourPlayer.kt:53-79 | one track of init's loop never clears a mask bit, and a track that throws leaves the index slots and the mask as they were (only its decoder slot may have changed) |
| TrackSelection.Walk | app/src/main/java/com/simplypatrick/loveyourplayer/YourPlayer.kt:50-80 | init's walk over the tracks only adds mask bits: what was set before, and by earlier tracks, stays set |
| TrackSelection.FirstFailureIsFirst | app/src/main/java/com/simplypatrick/loveyourplayer/YourPlayer.kt:46-86 | init gets through every track before the first one that throws, and the one it stops at throws |
| TrackSelection.SetUpFields | app/src/main/java/com/simplypatrick/loveyourplayer/YourPlayer.kt:53-79 | a decoder slot changes exactly when a decoder of its kind is created; an index slot exactly when a track of its kind is fully set up |
| TrackSelection.SetUpMask | app/src/main/java/com/simplypatrick/loveyourplayer/YourPlayer.kt:64-76 | the mask gains exactly the bit of a fully set-up video or audio track |
| TrackSelection.WalkMask | app/src/main/java/com/simplypatrick/loveyourplayer/YourPlayer.kt:50-80 | after the first n tracks the mask is its initial value ORed with the bits of the selected tracks among them |
| TrackSelection.SelectedMaskBits | app/src/main/java/com/simplypatrick/loveyourplayer/YourPlayer.kt:65-76 | bit j is set exactly when some selected track's index agrees with j modulo 32 |
| TrackSelection.MaskIsSelection | app/src/main/java/com/simplypatrick/loveyourplayer/YourPlayer.kt:65-76 | with at most 32 tracks, bit j is set exactly when track j is selected |
| TrackSelection.LastIndexIsLast | app/src/main/java/com/simplypatrick/loveyourplayer/YourPlayer.kt:64-75 | the index slot holds its initial value when no track of its kind was selected, else a selected track of that kind with none selected after it |
| TrackSelection.LastDecoderIsLast | app/src/main/java/com/simplypatrick/loveyourplayer/YourPlayer.kt:55-69 | the decoder slot holds its initial value when no decoder of its kind was created, else the decoder of the last track of that kind whose creation succeeded |
| TrackSelection.WalkIndices | app/src/main/java/com/simplypatrick/loveyourplayer/YourPlayer.kt:64-75 | after the walk each index slot is the last selected track of its kind, or its initial value |
| TrackSelection.WalkDecoders | app/src/main/java/com/simplypatrick/loveyourplayer/YourPlayer.kt:55-69 | after the walk each decoder slot is the last created decoder of its kind, or its initial value |
| TrackSelection.CompleteInitSelectsRecognised | app/src/main/java/com/simplypatrick/loveyourplayer/YourPlayer.kt:50-80 | when init gets through every track, a track is selected exactly when its MIME type is video or audio |
| TrackSelection.CompleteInit | app/src/main/java/com/simplypatrick/loveyourplayer/YourPlayer.kt:50-80 | a complete init of at most 32 tracks on a fresh player sets exactly the bits of the video and audio tracks; each index slot naming a track has its bit set; the two slots name different bits |
| TrackSelection.IndexSlotsDiffer | app/src/main/java/com/simplypatrick/loveyourplayer/YourPlayer.kt:64-75 | the video and audio index slots never name the same track |
| TrackMask.Bit | app/src/main/java/com/simplypatrick/loveyourplayer/YourPlayer.kt:65 | the bit of `1 shl i` lies in 0..31 and is i itself for 0 <= i < 32 |
| TrackMask.WithHas | app/src/main/java/com/simplypatrick/loveyourplayer/YourPlayer.kt:65-76 | ORing in `1 shl i` sets track j's bit too exactly when i and j agree modulo 32, and otherwise leaves it as it was |
| TrackMask.WithoutKeepsOthers | app/src/main/java/com/simplypatrick/loveyourplayer/YourPlayer.kt:212-218 | clearing a track's bit clears it and keeps the bit of every track whose index differs modulo 32 |
| TrackMask.AliasedTracksClearTogether | app/src/main/java/com/simplypatrick/loveyourplayer/YourPlayer.kt:212-218 | clearing track i + 32 also clears track i, and the other way round |
| Codecs.CodecTeardown | app/src/main/java/com/simplypatrick/loveyourplayer/YourPlayer.kt:230-233 | `dec?.stop(); dec?.release()` is two calls when the decoder exists and none otherwise |
| Codecs.TeardownCalls | app/src/main/java/com/simplypatrick/loveyourplayer/YourPlayer.kt:229-234 | the `finally` block makes two calls plus two for each decoder that exists (their order is TeardownOrder) |
| Codecs.TeardownOrder | app/src/main/java/com/simplypatrick/loveyourplayer/YourPlayer.kt:228-235 | the teardown releases the sync first and the extractor last, stops then releases the video decoder before the audio decoder, and makes only teardown calls |
| Codecs.AttemptedConcat | app/src/main/java/com/simplypatrick/loveyourplayer/YourPlayer.kt:228-235 | of two call sequences run one after the other, the second is reached only when no call of the first throws |
| Codecs.TeardownOnce | app/src/main/java/com/simplypatrick/loveyourplayer/YourPlayer.kt:228-235 | after loop calls and a teardown that does not throw, the sync and the extractor are released once, and each decoder is stopped once and released once |
| Codecs.FaultSkipsExtractorRelease | app/src/main/java/com/simplypatrick/loveyourplayer/YourPlayer.kt:228-235 | when any teardown call before the last throws, the extractor is never released |
| Player.Queues | app/src/main/java/com/simplypatrick/loveyourplayer/YourPlayer.kt:90 | processInputSample queues only for a slot index above 0; index 0 is passed over like a negative one |
| Player.InfoAfter | app/src/main/java/com/simplypatrick/loveyourplayer/YourPlayer.kt:105 | the shared `bi` is rewritten only when dequeueOutputBuffer returns a buffer, and keeps its old value for an INFO code |
| Player.AudioThrows | app/src/main/java/com/simplypatrick/loveyourplayer/YourPlayer.kt:129-132 | the audio path throws when its poll throws or when the new format lacks the sample rate, the channel count (with no mask) or, for a valid mask, the PCM encoding |
| Player.InputCalls | app/src/main/java/com/simplypatrick/loveyourplayer/YourPlayer.kt:88-102 | a queue call is made exactly when the slot index is above 0 |
| Player.VideoCalls | app/src/main/java/com/simplypatrick/loveyourplayer/YourPlayer.kt:117-118 | a release call is made exactly when the poll returned a buffer |
| Player.AudioCalls | app/src/main/java/com/simplypatrick/loveyourplayer/YourPlayer.kt:155-181 | a returned buffer is queued on the sync at its presentation time; no calls follow an INFO code other than a format change, or a format change that throws because it lacks a key buildAudioTrack reads; a format change with an invalid mask still hands no sink and the callback to the sync |
| Player.VideoPoll | app/src/main/java/com/simplypatrick/loveyourplayer/YourPlayer.kt:209-214 | without a decoder nothing happens; the path throws exactly when the poll throws, and then changes nothing and makes no call; it never sets a bit and leaves the sink alone |
| Player.AudioPoll | app/src/main/java/com/simplypatrick/loveyourplayer/YourPlayer.kt:215-220 | without a decoder nothing happens; the path throws exactly when the poll throws or the new format lacks a key, and then changes nothing and makes no call; it never sets a bit; only a format change replaces the sink |
| Player.RenderPaths | app/src/main/java/com/simplypatrick/loveyourplayer/YourPlayer.kt:209-220 | the render step throws exactly when a path with a decoder gets a throwing reply, never sets a bit and makes no teardown call |
| Player.PollClearsOnlyItsTrack | app/src/main/java/com/simplypatrick/loveyourplayer/YourPlayer.kt:209-220 | a render path reports the end of its track exactly when it did not throw and the shared BufferInfo has the end-of-stream flag; it then clears its own bit and no other bit; a throwing path changes nothing |
| Player.PollMaskInside | app/src/main/java/com/simplypatrick/loveyourplayer/YourPlayer.kt:209-220 | a render path only clears bits, and only its own track's |
| Player.RenderKeepsMaskInside | app/src/main/java/com/simplypatrick/loveyourplayer/YourPlayer.kt:209-220 | the two render paths only clear bits, and only those of tracks that own a decoder |
| Player.RenderKeepsOtherBits | app/src/main/java/com/simplypatrick/loveyourplayer/YourPlayer.kt:209-220 | the render paths keep the bit of every track that neither path serves |
| Player.SharedInfoEndsAudio | app/src/main/java/com/simplypatrick/loveyourplayer/YourPlayer.kt:209-220 | with both decoders, a video end-of-stream buffer followed by an audio INFO_TRY_AGAIN_LATER ends both tracks in the same pass |
| Player.InputDecoder | app/src/main/java/com/simplypatrick/loveyourplayer/YourPlayer.kt:193-203 | the `when` feeds the video decoder for a video sample, else the audio decoder for an audio sample, and nothing when that branch has no decoder or the track is neither |
| Player.EndsSamples | app/src/main/java/com/simplypatrick/loveyourplayer/YourPlayer.kt:204-206 | the `when` returns on -1 only when -1 is neither index slot, since the earlier branches are tried first |
| Player.Iteration | app/src/main/java/com/simplypatrick/loveyourplayer/YourPlayer.kt:192-225 | one pass advances the extractor at most once and makes no teardown call |
| Player.IterationExit | app/src/main/java/com/simplypatrick/loveyourplayer/YourPlayer.kt:192-225 | a pass returns on -1 exactly when the `when` takes that branch, before any rendering; it leaves by an exception exactly when the input poll of a fed decoder or a render path throws; it leaves with an empty mask or on an interrupt with live tracks, and goes round again only with live tracks and no interrupt |
| Player.ExhaustedEndsLoop | app/src/main/java/com/simplypatrick/loveyourplayer/YourPlayer.kt:204-206 | once the extractor has been advanced past every sample, a pass returns on -1 with nothing called and nothing changed |
| Player.StopEndsLoop | app/src/main/java/com/simplypatrick/loveyourplayer/YourPlayer.kt:222-224 | a stop() that lands in a pass that does not throw or return on -1 ends the loop with an empty mask |
| Player.IterationOnlyClears | app/src/main/java/com/simplypatrick/loveyourplayer/YourPlayer.kt:192-225 | a pass never sets a mask bit |
| Player.IterationKeepsOthers | app/src/main/java/com/simplypatrick/loveyourplayer/YourPlayer.kt:192-225 | without a stop(), a pass keeps every bit of a track that owns no decoder, and the bit of every track neither path serves |
| Player.BufferInfo.Fill | app/src/main/java/com/simplypatrick/loveyourplayer/YourPlayer.kt:105 | a returned buffer's information is written into the shared BufferInfo |
| Player.YourPlayer.constructor | app/src/main/java/com/simplypatrick/loveyourplayer/YourPlayer.kt:34-44 | no decoders, both index slots -2, no sink, an empty mask |
| Player.YourPlayer.Init | app/src/main/java/com/simplypatrick/loveyourplayer/YourPlayer.kt:46-86 | fails without change when the source cannot be opened; otherwise returns true exactly when no track throws, and leaves the slots as the walk over the tracks it reached, earlier changes kept |
| Player.YourPlayer.SetUpTrack | app/src/main/java/com/simplypatrick/loveyourplayer/YourPlayer.kt:51-79 | one track of init's loop: fails exactly when the track throws, and leaves the slots as SetUp says |
| Player.YourPlayer.ProcessInputSample | app/src/main/java/com/simplypatrick/loveyourplayer/YourPlayer.kt:88-102 | with a slot above 0, queues the sample, or an empty end-of-stream buffer when the read yields no bytes, then advances once; otherwise queues nothing and does not advance |
| Player.YourPlayer.RenderVideoSample | app/src/main/java/com/simplypatrick/loveyourplayer/YourPlayer.kt:104-125 | only a returned buffer rewrites the BufferInfo and is released at 1000 times its presentation time; the result is false exactly when the BufferInfo has the end-of-stream flag |
| Player.YourPlayer.RenderAudioSample | app/src/main/java/com/simplypatrick/loveyourplayer/YourPlayer.kt:153-187 | a format change builds the sink, plays it and hands it to the sync; a buffer is queued on the sync; the result is false exactly when the BufferInfo has the end-of-stream flag |
| Player.YourPlayer.Feed | app/src/main/java/com/simplypatrick/loveyourplayer/YourPlayer.kt:193-207 | the `when` feeds the decoder of the current sample's track, video tried first, and takes the -1 branch only when neither index matches |
| Player.YourPlayer.PollVideo | app/src/main/java/com/simplypatrick/loveyourplayer/YourPlayer.kt:209-214 | equals VideoPoll on the fields and the BufferInfo |
| Player.YourPlayer.PollAudio | app/src/main/java/com/simplypatrick/loveyourplayer/YourPlayer.kt:215-220 | equals AudioPoll on the fields and the BufferInfo |
| Player.YourPlayer.Render | app/src/main/java/com/simplypatrick/loveyourplayer/YourPlayer.kt:209-220 | equals RenderPaths: the audio path is not reached when the video path throws |
| Player.YourPlayer.Step | app/src/main/java/com/simplypatrick/loveyourplayer/YourPlayer.kt:192-225 | one pass of the loop equals Iteration on the fields and the BufferInfo |
| Player.Passes | app/src/main/java/com/simplypatrick/loveyourplayer/YourPlayer.kt:190-225 | the `while (true)` is one pass per tick, each from the state the previous left, ending with the first pass that leaves; at most one pass per tick, and none of its calls is a teardown call |
| Player.PassesExit | app/src/main/java/com/simplypatrick/loveyourplayer/YourPlayer.kt:192-225 | the loop leaves on -1 with the extractor exhausted, on an empty mask, on an interrupt with tracks live, or by an exception only on a tick with a throwing reply; still running, it has live tracks and saw no interrupt |
| Player.PassesMask | app/src/main/java/com/simplypatrick/loveyourplayer/YourPlayer.kt:209-222 | across all passes the mask only loses bits; without a stop() only bits of tracks owning a decoder are lost and every other track's bit is kept |
| Player.PassesAppend | app/src/main/java/com/simplypatrick/loveyourplayer/YourPlayer.kt:191-225 | the loop resumed from the state it left after some passes does what the uninterrupted loop does |
| Player.YourPlayer.RunPasses | app/src/main/java/com/simplypatrick/loveyourplayer/YourPlayer.kt:190-225 | the `try` block's passes over a fresh `bi` leave exactly the exit, pass count, extractor, sink, mask and calls of Passes, and the log grows by those calls (what that means is PassesExit, PassesMask and PassesAppend) |
| Player.YourPlayer.Teardown | app/src/main/java/com/simplypatrick/loveyourplayer/YourPlayer.kt:228-235 | makes the teardown calls in order up to and including the first that throws, and reports whether one threw |
| Player.YourPlayer.ReleaseDecodersAndExtractor | app/src/main/java/com/simplypatrick/loveyourplayer/YourPlayer.kt:230-234 | after the MediaSync, the video pair, the audio pair and the extractor release run in turn up to and including the first that throws |
| Player.YourPlayer.ReleaseAudioAndExtractor | app/src/main/java/com/simplypatrick/loveyourplayer/YourPlayer.kt:232-234 | the audio decoder's stop and release, then the extractor release, run in turn up to and including the first that throws |
| Player.YourPlayer.ReleaseCodec | app/src/main/java/com/simplypatrick/loveyourplayer/YourPlayer.kt:230-233 | stop then release of a decoder that exists; the release is skipped when the stop throws |
| Player.YourPlayer.PlaybackLoop | app/src/main/java/com/simplypatrick/loveyourplayer/YourPlayer.kt:189-236 | the passes are exactly Passes from the player's state; every exit of the loop, by return or caught exception, is followed by the teardown; the log is the passes' calls then the attempted teardown calls; it leaves on -1, an empty mask, an interrupt or a poll exception, goes on only while tracks are live and no interrupt was seen, only clears bits, and keeps the bits of tracks owning no decoder when no stop() came |
| Player.YourPlayer.Stop | app/src/main/java/com/simplypatrick/loveyourplayer/YourPlayer.kt:238-240 | the mask becomes empty, so a second call changes nothing |

## Left out

- The Android internals of `MediaCodec`, `MediaExtractor`, `AudioTrack` and `MediaSync` are not modelled. Their replies are supplied as data (`Tick`, `Track.setup`, `minBufferSize`, the teardown fault position).
- The set-up calls after a decoder is created are not logged: `mediaSync.setSurface`, `createInputSurface`, `configure`, `start` and `selectTrack` in the video branch, and `configure`, `start` and `selectTrack` in the audio branch. In both branches their failure is the single outcome `ConfigureFails`, and `extractor.selectTrack` is reflected only in which samples the opened extractor yields. The decoders left behind when a later track of the same kind overwrites the slot are not tracked.
- The `onAudioBufferConsumed` callback is not modelled; only its installation is logged (`SetSyncCallback`). `PlaybackParams().setSpeed(1.0f)` is floating-point platform configuration and is left out.
- `getInputBuffer`/`getOutputBuffer` and the buffer contents are not modelled. The model keeps only sizes, times, flags and indices.
- Concurrency is not modelled. `Thread.yield` is a no-op. A `stop()` from another thread is taken to land just before the liveness check of a pass. `Thread.interrupted()` is a supplied flag, and its clearing of the flag is not modelled.
- Logging (`Log.d`, `Log.e`) is left out.
- In the playback loop, only the dequeue calls and `outputFormat`'s missing keys in `buildAudioTrack` throw in the model, and after it only the teardown calls. (In `init`, an unopenable source, a track without a MIME type, and a decoder that cannot be created or set up throw as well.) Exceptions from `queueInputBuffer`, `releaseOutputBuffer`, `queueAudio`, `play` and the `MediaSync` setters are not modelled. In particular, after a format change with an invalid channel mask, `mediaSync.setAudioTrack(null)` is followed by `queueAudio` for the next audio buffer, which the platform rejects with no audio track set; that exception ends the whole loop. In the model the audio buffer is queued and playback goes on. Likewise the `AudioTrack` builder's own exceptions are dropped: `setBufferSizeInBytes` rejects a non-positive `getMinBufferSize` result, but `BuildAudioTrack` builds a sink for any `minBufferSize`, and playback goes on in the model.
- Player.YourPlayer.RenderVideoSample: `1000 * presentationTimeUs` is unbounded, so a 64-bit Long overflow is not modelled.
- Player.YourPlayer.PlaybackLoop: the run is bounded by the supplied ticks. When they run out the loop is reported as still running and the teardown has not happened.
- Player.YourPlayer.Init: a `dataSource` that cannot be opened is a missing container (`None`). The surface argument is not modelled.
- PlayerFragment.kt, PlayerViewModel.kt and PlayerActivity.kt (UI, permissions, the worker thread) are not part of this model.
