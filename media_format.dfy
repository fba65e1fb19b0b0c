/** The platform's media-format descriptor, the channel-mask property derived
    from it, and the validity gate that decides whether an audio sink is built. */
module MediaFormats {

  /** An exception raised by a platform call. */
  datatype Fault = MissingKey(key: string)

  datatype Result<T> = Ok(value: T) | Err(fault: Fault)

  // MediaFormat keys
  const KEY_MIME := "mime"
  const KEY_CHANNEL_MASK := "channel-mask"
  const KEY_CHANNEL_COUNT := "channel-count"
  const KEY_SAMPLE_RATE := "sample-rate"
  const KEY_PCM_ENCODING := "pcm-encoding"

  // AudioFormat channel layouts
  const CHANNEL_INVALID := 0
  const CHANNEL_OUT_STEREO := 12
  const CHANNEL_OUT_5POINT1 := 252

  // AudioAttributes content type and AudioTrack transfer mode
  const CONTENT_TYPE_MOVIE := 3
  const MODE_STREAM := 1

  /** A MediaFormat: a dictionary whose string and integer entries are kept apart. */
  datatype Format = Format(strings: map<string, string>, ints: map<string, int>)

  /** MediaFormat.getInteger: a missing key throws. */
  function GetInteger(f: Format, key: string): (r: Result<int>)
    ensures r.Ok? <==> key in f.ints
    ensures r.Ok? ==> r.value == f.ints[key]
    ensures r.Err? ==> r.fault == MissingKey(key)
  {
    if key in f.ints then Ok(f.ints[key]) else Err(MissingKey(key))
  }

  /** MediaFormat.getString: a missing key gives null. */
  function GetString(f: Format, key: string): (r: Option<string>)
    ensures r.Some? <==> key in f.strings
    ensures r.Some? ==> r.value == f.strings[key]
  {
    if key in f.strings then Some(f.strings[key]) else None
  }

  datatype Option<T> = None | Some(value: T)

  /** The `channelMask` extension property: an explicit channel mask wins
      (whatever its value); otherwise the channel count is mapped, and a
      missing channel count throws. */
  function ChannelMask(f: Format): (r: Result<int>)
    ensures KEY_CHANNEL_MASK in f.ints ==> r == Ok(f.ints[KEY_CHANNEL_MASK])
    ensures KEY_CHANNEL_MASK !in f.ints ==>
      (r.Err? <==> KEY_CHANNEL_COUNT !in f.ints)
    ensures KEY_CHANNEL_MASK !in f.ints && r.Ok? ==>
      var n := f.ints[KEY_CHANNEL_COUNT];
      && (r.value == CHANNEL_OUT_STEREO <==> n == 2)
      && (r.value == CHANNEL_OUT_5POINT1 <==> n == 6)
      && (r.value == CHANNEL_INVALID <==> n != 2 && n != 6)
  {
    match GetInteger(f, KEY_CHANNEL_MASK)
    case Ok(mask) => Ok(mask)
    case Err(_) =>
      match GetInteger(f, KEY_CHANNEL_COUNT)
      case Err(e) => Err(e)
      case Ok(count) =>
        Ok(if count == 2 then CHANNEL_OUT_STEREO
           else if count == 6 then CHANNEL_OUT_5POINT1
           else CHANNEL_INVALID)
  }

  /** What the AudioTrack builder is given. */
  datatype AudioSinkConfig = AudioSinkConfig(
    contentType: int,
    sampleRate: int,
    channelMask: int,
    encoding: int,
    bufferSizeInBytes: int,
    transferMode: int)

  /** buildAudioTrack: reads the sample rate, then the channel mask; with an
      invalid mask no sink is built (null), otherwise the PCM encoding is read
      and the sink is configured with the platform's minimum buffer size for
      that rate, mask and encoding (`minBufferSize` stands for
      AudioTrack.getMinBufferSize). */
  function BuildAudioTrack(f: Format, minBufferSize: (int, int, int) -> int): (r: Result<Option<AudioSinkConfig>>)
    ensures r.Err? <==>
      || KEY_SAMPLE_RATE !in f.ints
      || ChannelMask(f).Err?
      || (ChannelMask(f).value != CHANNEL_INVALID && KEY_PCM_ENCODING !in f.ints)
    ensures r.Ok? ==> (r.value.None? <==> ChannelMask(f) == Ok(CHANNEL_INVALID))
    ensures r.Ok? && r.value.Some? ==>
      var c := r.value.value;
      var rate := f.ints[KEY_SAMPLE_RATE];
      var mask := ChannelMask(f).value;
      var enc := f.ints[KEY_PCM_ENCODING];
      && c.contentType == CONTENT_TYPE_MOVIE
      && c.sampleRate == rate
      && c.channelMask == mask
      && c.encoding == enc
      && c.bufferSizeInBytes == minBufferSize(rate, mask, enc)
      && c.transferMode == MODE_STREAM
  {
    match GetInteger(f, KEY_SAMPLE_RATE)
    case Err(e) => Err(e)
    case Ok(sampleRate) =>
      match ChannelMask(f)
      case Err(e) => Err(e)
      case Ok(channelMask) =>
        if channelMask == CHANNEL_INVALID then Ok(None)
        else
          match GetInteger(f, KEY_PCM_ENCODING)
          case Err(e) => Err(e)
          case Ok(pcmEncoding) =>
            Ok(Some(AudioSinkConfig(CONTENT_TYPE_MOVIE, sampleRate, channelMask, pcmEncoding,
                                    minBufferSize(sampleRate, channelMask, pcmEncoding), MODE_STREAM)))
  }

  /** An audio format without an explicit channel mask whose channel count is
      neither 2 nor 6 yields no audio sink. */
  lemma UnsupportedCountBuildsNoSink(f: Format, minBufferSize: (int, int, int) -> int)
    requires KEY_CHANNEL_MASK !in f.ints && KEY_SAMPLE_RATE in f.ints
    requires KEY_CHANNEL_COUNT in f.ints
    requires f.ints[KEY_CHANNEL_COUNT] != 2 && f.ints[KEY_CHANNEL_COUNT] != 6
    ensures BuildAudioTrack(f, minBufferSize) == Ok(None)
  {
  }
}
