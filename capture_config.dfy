/** The option normalisation performed by `init` of the native capture
    module: an option map from the application becomes the parameters the
    OS audio recorder is created with. */
module CaptureConfig {
  import opened Common

  /** A value of the option map: a JavaScript number (already converted to
      the Java `int` that `getInt` returns) or anything else. */
  datatype Value = Number(n: int32) | NonNumber

  /** The option names `init` looks up; the map may hold others, which it never reads. */
  datatype Key = SpeakerPhoneOn | SampleRate | Channels | BitsPerSample | AudioSource | BufferSize

  /** The option map passed to `init`; a key is present exactly when `hasKey` holds. */
  type Options = map<Key, Value>

  datatype ChannelConfig = Mono | Stereo

  datatype SampleEncoding = Pcm16 | Pcm8

  /** Android's AudioFormat and AudioSource constants the module uses. */
  const CHANNEL_IN_MONO: int32 := 16
  const CHANNEL_IN_STEREO: int32 := 12
  const ENCODING_PCM_16BIT: int32 := 2
  const ENCODING_PCM_8BIT: int32 := 3
  const VOICE_RECOGNITION: int32 := 6
  const DEFAULT_SAMPLE_RATE: int32 := 44100

  /** The keys read with `getInt`, in the order `init` reads them. */
  const IntKeys: seq<Key> := [SampleRate, Channels, BitsPerSample, AudioSource, BufferSize]

  function ChannelMask(c: ChannelConfig): int32 {
    match c
    case Mono => CHANNEL_IN_MONO
    case Stereo => CHANNEL_IN_STEREO
  }

  function EncodingCode(e: SampleEncoding): int32 {
    match e
    case Pcm16 => ENCODING_PCM_16BIT
    case Pcm8 => ENCODING_PCM_8BIT
  }

  /** What `init` hands to the recorder thread. */
  datatype Config = Config(
    speakerPhoneOn: bool,
    sampleRateInHz: int32,
    channels: ChannelConfig,
    encoding: SampleEncoding,
    audioSource: int32,
    bufferSize: int32)

  /** `getInt` throws when the value under the key is not a number. */
  datatype InitError = NotAnInt(key: Key)

  /** The platform's minimum buffer size for a sample rate, channel mask and
      encoding code (AudioRecord.getMinBufferSize, an OS call). It may be
      negative: the OS reports a bad configuration with a negative code. */
  type MinBufferSize = (int32, int32, int32) -> int32

  /** Java's Math.max on two ints. */
  function Max(a: int32, b: int32): (r: int32)
    ensures r >= a && r >= b
    ensures r == a || r == b
  {
    if a >= b then a else b
  }

  ghost predicate Malformed(options: Options, key: Key) {
    key in options && options[key].NonNumber?
  }

  /** `if (options.hasKey(key)) ... options.getInt(key)`: absent, the number, or the throw. */
  function IntOption(options: Options, key: Key): (r: Result<Option<int32>, InitError>)
    ensures r.Err? <==> Malformed(options, key)
    ensures r.Err? ==> r.error == NotAnInt(key)
    ensures r == Ok(None) <==> key !in options
    ensures r.Ok? && r.value.Some? ==> key in options && options[key] == Number(r.value.value)
  {
    if key !in options then Ok(None)
    else
      match options[key]
      case Number(n) => Ok(Some(n))
      case NonNumber => Err(NotAnInt(key))
  }

  /** The body of `init` up to the creation of the recorder thread. */
  function Normalise(options: Options, minBufferSize: MinBufferSize): (r: Result<Config, InitError>)
    ensures r.Ok? ==> (r.value.speakerPhoneOn <==> SpeakerPhoneOn in options)
    ensures r.Ok? ==> (SampleRate in options ==> options[SampleRate] == Number(r.value.sampleRateInHz))
    ensures r.Ok? ==> (SampleRate !in options ==> r.value.sampleRateInHz == DEFAULT_SAMPLE_RATE)
    ensures r.Ok? ==> (r.value.channels == Stereo <==> Channels in options && options[Channels] == Number(2))
    ensures r.Ok? ==> (r.value.encoding == Pcm8 <==> BitsPerSample in options && options[BitsPerSample] == Number(8))
    ensures r.Ok? ==> (AudioSource in options ==> options[AudioSource] == Number(r.value.audioSource))
    ensures r.Ok? ==> (AudioSource !in options ==> r.value.audioSource == VOICE_RECOGNITION)
    // the read buffer is never below the platform minimum: max(minimum, requested), or the minimum
    ensures r.Ok? ==>
      var min := minBufferSize(r.value.sampleRateInHz, ChannelMask(r.value.channels), EncodingCode(r.value.encoding));
      && r.value.bufferSize >= min
      && (BufferSize in options ==>
            options[BufferSize].Number? && r.value.bufferSize == Max(min, options[BufferSize].n))
      && (BufferSize !in options ==> r.value.bufferSize == min)
  {
    var speakerPhoneOn := SpeakerPhoneOn in options;
    var rate :- IntOption(options, SampleRate);
    var sampleRateInHz := if rate.Some? then rate.value else DEFAULT_SAMPLE_RATE;
    var channels :- IntOption(options, Channels);
    var channelConfig := if channels == Some(2) then Stereo else Mono;
    var bits :- IntOption(options, BitsPerSample);
    var encoding := if bits == Some(8) then Pcm8 else Pcm16;
    var source :- IntOption(options, AudioSource);
    var audioSource := if source.Some? then source.value else VOICE_RECOGNITION;
    var min := minBufferSize(sampleRateInHz, ChannelMask(channelConfig), EncodingCode(encoding));
    var requested :- IntOption(options, BufferSize);
    var bufferSize := if requested.Some? then Max(min, requested.value) else min;
    Ok(Config(speakerPhoneOn, sampleRateInHz, channelConfig, encoding, audioSource, bufferSize))
  }

  /** `init` throws exactly when an int option holds a non-number, and the
      exception names the first such key in the order `init` reads them. */
  lemma {:induction false} FirstMalformedKeyThrows(options: Options, minBufferSize: MinBufferSize)
    ensures Normalise(options, minBufferSize).Err? <==>
              exists i :: 0 <= i < |IntKeys| && Malformed(options, IntKeys[i])
    ensures Normalise(options, minBufferSize).Err? ==>
              exists i :: 0 <= i < |IntKeys| && Malformed(options, IntKeys[i]) &&
                Normalise(options, minBufferSize).error == NotAnInt(IntKeys[i]) &&
                forall j :: 0 <= j < i ==> !Malformed(options, IntKeys[j])
  {
    var r := Normalise(options, minBufferSize);
    if Malformed(options, IntKeys[0]) {
      assert r == Err(NotAnInt(IntKeys[0]));
    } else if Malformed(options, IntKeys[1]) {
      assert r == Err(NotAnInt(IntKeys[1]));
    } else if Malformed(options, IntKeys[2]) {
      assert r == Err(NotAnInt(IntKeys[2]));
    } else if Malformed(options, IntKeys[3]) {
      assert r == Err(NotAnInt(IntKeys[3]));
    } else if Malformed(options, IntKeys[4]) {
      assert r == Err(NotAnInt(IntKeys[4]));
    } else {
      assert r.Ok?;
    }
  }

  /** With no options at all, `init` picks 44100 Hz, mono, 16-bit PCM, the
      voice-recognition source, no speaker routing and the platform minimum buffer. */
  lemma Defaults(minBufferSize: MinBufferSize)
    ensures Normalise(map[], minBufferSize) ==
      Ok(Config(false, 44100, Mono, Pcm16, 6, minBufferSize(44100, 16, 2)))
  {
  }

  /** Any value under `speakerPhoneOn`, even a non-number, turns speaker routing on. */
  lemma SpeakerPhoneIsPresenceFlag(options: Options, v: Value, minBufferSize: MinBufferSize)
    requires Normalise(options, minBufferSize).Ok?
    ensures Normalise(options[SpeakerPhoneOn := v], minBufferSize).Ok?
    ensures Normalise(options[SpeakerPhoneOn := v], minBufferSize).value.speakerPhoneOn
  {
    var o := options[SpeakerPhoneOn := v];
    forall i | 0 <= i < |IntKeys| ensures !Malformed(o, IntKeys[i]) {
      assert IntKeys[i] != SpeakerPhoneOn;
    }
  }

  /** A requested buffer size of 0 yields max(platform minimum, 0): the
      platform minimum unless the OS answered with a negative error code. */
  lemma ZeroBufferSizeGivesMinimum(minBufferSize: MinBufferSize)
    ensures
      var options := map[SampleRate := Number(16000), Channels := Number(1),
                          BitsPerSample := Number(16), BufferSize := Number(0)];
      var min := minBufferSize(16000, CHANNEL_IN_MONO, ENCODING_PCM_16BIT);
      Normalise(options, minBufferSize) ==
        Ok(Config(false, 16000, Mono, Pcm16, VOICE_RECOGNITION, if min >= 0 then min else 0))
  {
  }
}
