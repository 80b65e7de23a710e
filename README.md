# React Native live audio stream: capture core in Dafny

The library streams microphone audio to a React Native application. On
Android a native module normalises the capture options in `init`. It then
creates a recorder thread that reads PCM buffers from the OS recorder. The
thread drops the first two buffers that held data, to avoid a start-up
click, and emits every later buffer, base64-encoded, as a `data` event.
`start` and `stop` set and clear the thread's recording flag. On the
JavaScript side, `NativeRecordReceivePCM` turns a received chunk into signed
16-bit little-endian samples and adds up their magnitudes.

The model has five modules:

- `Common` (common.dfy): Java `int` and JavaScript ToInt32 wrap-around (`Wrap32`), bytes, and `Option`/`Result`.
- `CaptureConfig` (capture_config.dfy): `init`'s option normalisation, as a pure function `Normalise`.
  - The option map is a `map` from the six option names `init` reads. A value is a number (already the Java `int` that `getInt` returns) or a non-number.
  - `getInt` on a non-number throws. This is modelled as `Err(NotAnInt(key))`, naming the first such key in read order.
  - `AudioRecord.getMinBufferSize` is a function parameter. It receives the Android constants: `CHANNEL_IN_MONO` 16, `CHANNEL_IN_STEREO` 12, `ENCODING_PCM_16BIT` 2, `ENCODING_PCM_8BIT` 3. The default source is `VOICE_RECOGNITION`, 6.
- `RecordLoop` (record_loop.dfy): the read loop of `run`.
  - `RunLoop` is a method. It reads into one reused `byte` array and keeps a Java `int` counter.
  - It is proved equal to the functional specification `Loop`/`Capture`.
  - Lemmas relate that specification to the reference definitions `Snapshots`: the buffer after each positive read, and `PositiveData`: the data of each positive read.
  - The reads are given as a sequence of `ReadResult`s: bytes written, a negative error code, or an exception. The sequence holds the reads performed while the flag was seen set; when it ends, the flag was seen clear.
- `LiveAudioStream` (live_audio_stream.dfy): the module object and the recorder thread as classes.
  - `init`, `start` and `stop` update the `recordThread` reference and the thread's `isRecording` flag.
  - `Valid()` is the invariant "the current thread was launched exactly when its flag is set". It is why `start` never calls `Thread.start` twice.
  - `RecordThread.Run` logs the recorder lifecycle calls (`startRecording`, `stop`, `release`) and returns the emitted payloads.
  - The system audio routing changed for `speakerPhoneOn` is an `AudioRouting` object.
- `PcmReceiver` (pcm_receiver.dfy): `NativeRecordReceivePCM` after `atob`.
  - The JavaScript `<<`, `>>` and `|` of the sample expression are written out on integers.
  - The decoder is a method that fills an `array<int16>` in a loop. It is proved equal to `Decode` and to `AbsSum`. `Decode` is built on `Sample`, the plain two's-complement reading of each byte pair. `SampleExpression`, the JavaScript expression itself, is proved equal to it.
  - `Encode` writes samples as little-endian bytes. It is the inverse of `Decode`.

Behaviour of the code worth knowing:

- `init` while a thread is recording replaces that thread. The old thread is left unchanged, still recording and now unreachable (`LiveAudioStreamModule.Init`).
- `start` while a thread is recording is a silent no-op (`LiveAudioStreamModule.Start`).
- A requested buffer size of 0 gives `max(minimum, 0)`. That is the platform minimum unless the OS answers with a negative error code, and then it is 0 (`ZeroBufferSizeGivesMinimum`).
- When `startRecording` throws, the exception leaves `run` before the `try`, and the recorder is not released (`RecordThread.Run`).
- The loop counter is a Java `int`. After 2^31 - 1 positive reads it wraps to -2^31. The next 2^31 + 3 positive reads are then not emitted, until the counter climbs past 2 again (`CounterWrapPausesEmission`).
- Each emitted payload is the whole buffer. After a short read, its tail still holds bytes from earlier reads, or zeros (`SnapshotsShape`).

## Model

| member | source | states |
|---|---|---|
| Common.Wrap32 | android/src/main/java/com/imxiqi/rnliveaudiostream/RNLiveAudioStreamModule.java:110 | Java `int` arithmetic, as in `++count` and `bufferSize * 3`, and JavaScript ToInt32, as in `<<`: the result is congruent to the exact value modulo 2^32, and equals it when it fits in 32 signed bits. |
| CaptureConfig.Max | android/src/main/java/com/imxiqi/rnliveaudiostream/RNLiveAudioStreamModule.java:69 | `Math.max`: the result is one of the two arguments and is at least both. |
| CaptureConfig.IntOption | android/src/main/java/com/imxiqi/rnliveaudiostream/RNLiveAudioStreamModule.java:43-45 | A `hasKey`-guarded `getInt`. An absent key gives `None`. A number gives that number. A non-number gives the throw, naming the key. |
| CaptureConfig.Normalise | android/src/main/java/com/imxiqi/rnliveaudiostream/RNLiveAudioStreamModule.java:36-70 | On success: `speakerPhoneOn` holds exactly when the key is present. Sample rate and source are the given numbers or 44100 and `VOICE_RECOGNITION`. Stereo exactly when `channels` is the number 2. 8-bit exactly when `bitsPerSample` is the number 8. The buffer size is at least the platform minimum: `max(minimum, requested)` if requested, else the minimum. |
| CaptureConfig.FirstMalformedKeyThrows | android/src/main/java/com/imxiqi/rnliveaudiostream/RNLiveAudioStreamModule.java:42-70 | `init` fails exactly when an int option holds a non-number. The error names the first such key in read order. |
| CaptureConfig.Defaults | android/src/main/java/com/imxiqi/rnliveaudiostream/RNLiveAudioStreamModule.java:37-66 | With no options: 44100 Hz, mono, 16-bit, source 6, no speaker routing, and the platform minimum buffer for those parameters. |
| CaptureConfig.SpeakerPhoneIsPresenceFlag | android/src/main/java/com/imxiqi/rnliveaudiostream/RNLiveAudioStreamModule.java:37-40 | Adding `speakerPhoneOn` with any value, even a non-number, keeps `init` successful and turns routing on. |
| CaptureConfig.ZeroBufferSizeGivesMinimum | android/src/main/java/com/imxiqi/rnliveaudiostream/RNLiveAudioStreamModule.java:66-70 | 16 kHz, mono, 16-bit with `bufferSize` 0 gives the platform minimum for 16000/16/2, or 0 when that minimum is a negative error code. |
| RecordLoop.Loop | android/src/main/java/com/imxiqi/rnliveaudiostream/RNLiveAudioStreamModule.java:106-114 | The `while (isRecording)` loop from a given buffer and counter: at most one chunk per read. |
| RecordLoop.Capture | android/src/main/java/com/imxiqi/rnliveaudiostream/RNLiveAudioStreamModule.java:100-117 | The `try` block of `run`: a negative buffer size fails allocation with nothing emitted. Each emitted chunk has `bufferSize` bytes, and there is at most one per read. |
| RecordLoop.DeviceWrite | android/src/main/java/com/imxiqi/rnliveaudiostream/RNLiveAudioStreamModule.java:107 | `recorder.read(buffer, 0, buffer.length)` as the device performs it: the bytes read land at the front of the buffer, and the rest is untouched. |
| RecordLoop.RunLoop | android/src/main/java/com/imxiqi/rnliveaudiostream/RNLiveAudioStreamModule.java:100-116 | The loop over a reused zeroed buffer with a Java `int` counter emits exactly the chunks of `Capture` and exits the same way. A negative size fails allocation before any read. |
| RecordLoop.SnapshotsShape | android/src/main/java/com/imxiqi/rnliveaudiostream/RNLiveAudioStreamModule.java:104-107 | One buffer state per positive read. Each has the buffer's length and starts with that read's bytes. Past them it keeps the previous state's bytes, or the initial buffer's for the first. |
| RecordLoop.LoopDropsWarmUp | android/src/main/java/com/imxiqi/rnliveaudiostream/RNLiveAudioStreamModule.java:106-113 | From counter `c`, the emitted chunks are the buffer states after each positive read, minus the first `2 - c`. Reads with `bytesRead <= 0` do not advance the counter. |
| RecordLoop.WarmUpDiscard | android/src/main/java/com/imxiqi/rnliveaudiostream/RNLiveAudioStreamModule.java:102-113 | A run emits the buffer states after the 3rd, 4th, ... positive reads, in order. The first two positive reads are never emitted. |
| RecordLoop.EmittedChunks | android/src/main/java/com/imxiqi/rnliveaudiostream/RNLiveAudioStreamModule.java:104-113 | A run emits `max(0, P - 2)` chunks for `P` positive reads. Chunk `k` has `bufferSize` bytes and starts with the data of positive read `k + 2` (counting from 0). |
| RecordLoop.ChunksAreWholeBuffer | android/src/main/java/com/imxiqi/rnliveaudiostream/RNLiveAudioStreamModule.java:104-112 | Every emitted chunk has the buffer's full length, not `bytesRead`, whatever the counter does. |
| RecordLoop.FaultedIffRaised | android/src/main/java/com/imxiqi/rnliveaudiostream/RNLiveAudioStreamModule.java:100-117 | The loop ends through the catch block exactly when some iteration raised. Otherwise it ends normally. |
| RecordLoop.NoEmissionUpToTwo | android/src/main/java/com/imxiqi/rnliveaudiostream/RNLiveAudioStreamModule.java:110 | While the counter plus the positive reads still to come stays at or below 2, no read is emitted, for any counter including a negative one. |
| RecordLoop.CounterWrapPausesEmission | android/src/main/java/com/imxiqi/rnliveaudiostream/RNLiveAudioStreamModule.java:110 | From counter 2^31 - 1, `++count` wraps to -2^31, and the next 2^31 + 3 positive reads (the wrapping one included) emit nothing. |
| LiveAudioStream.AudioRouting.constructor | android/src/main/java/com/imxiqi/rnliveaudiostream/RNLiveAudioStreamModule.java:86-88 | The system audio routing that `AudioManager` holds: a mode and a speakerphone flag, as given. |
| LiveAudioStream.DriverBufferSize | android/src/main/java/com/imxiqi/rnliveaudiostream/RNLiveAudioStreamModule.java:92-94 | The recorder's internal buffer is 3 × the read buffer modulo 2^32, and exactly 3 × when that does not overflow a Java `int`. |
| LiveAudioStream.RecordThread.constructor | android/src/main/java/com/imxiqi/rnliveaudiostream/RNLiveAudioStreamModule.java:83-95 | A new thread keeps the configuration and read-buffer size. Its driver buffer is `DriverBufferSize`. It is neither recording nor started, holds a recorder, and has made no recorder calls. |
| LiveAudioStream.RecordThread.Launch | android/src/main/java/com/imxiqi/rnliveaudiostream/RNLiveAudioStreamModule.java:132 | `Thread.start` may be called only on a thread that was never started, and marks it started. |
| LiveAudioStream.RecordThread.Run | android/src/main/java/com/imxiqi/rnliveaudiostream/RNLiveAudioStreamModule.java:97-122 | If `startRecording` throws: nothing is emitted and the recorder is kept. Otherwise: the chunks of `Capture` are emitted, `stop` is called only on normal loop exit, `release` is always called, and the recorder reference is cleared. |
| LiveAudioStream.LiveAudioStreamModule.constructor | android/src/main/java/com/imxiqi/rnliveaudiostream/RNLiveAudioStreamModule.java:25-28 | A new module has no recorder thread. |
| LiveAudioStream.LiveAudioStreamModule.Init | android/src/main/java/com/imxiqi/rnliveaudiostream/RNLiveAudioStreamModule.java:35-73 | A bad option changes nothing. Otherwise routing switches to communication mode with the speaker on when `speakerPhoneOn` is set. If the recorder is created, a fresh idle thread replaces the old one; if not, the old one stays. A replaced thread is left unchanged. `Valid()` is kept. |
| LiveAudioStream.LiveAudioStreamModule.Start | android/src/main/java/com/imxiqi/rnliveaudiostream/RNLiveAudioStreamModule.java:125-133 | With no thread, or one already recording: no change. Otherwise the flag is set and the thread is launched, which `Valid()` shows happens at most once. |
| LiveAudioStream.LiveAudioStreamModule.Stop | android/src/main/java/com/imxiqi/rnliveaudiostream/RNLiveAudioStreamModule.java:135-141 | The old thread's flag is cleared and the reference dropped. Nothing else of the thread changes, and routing is not restored. With no thread it is a no-op. |
| LiveAudioStream.LiveAudioStreamModule.StopThenStart | android/src/main/java/com/imxiqi/rnliveaudiostream/RNLiveAudioStreamModule.java:125-141 | After `stop`, a `start` and a second `stop` leave the module without a thread and the old thread not recording. |
| PcmReceiver.ShiftLeft | index.js:88 | JavaScript `x << k` is `x * 2^k` wrapped to 32 signed bits: congruent to it modulo 2^32, and equal to it whenever it fits. |
| PcmReceiver.BitOr | index.js:88 | Bitwise or of non-negative integers, never above their sum. |
| PcmReceiver.BitOrDisjoint | index.js:88 | Or-ing `a < 2^k` with a multiple of `2^k` is addition, so `lo \| (hi << 8)` equals `lo + 256*hi`. |
| PcmReceiver.ShiftRight | index.js:88 | JavaScript `x >> k`: `k` halvings rounding down, so the result keeps the sign of `x` and does not exceed it in magnitude. |
| PcmReceiver.ShiftRightOfMultiple | index.js:88 | `(x * 2^k) >> k` is `x`. |
| PcmReceiver.SignExtend16 | index.js:88 | `(w << 16) >> 16` on a 16-bit `w` is `w` below 32768 and `w - 65536` above. |
| PcmReceiver.Sample | index.js:88 | The reference sample: a value in `[-32768, 32767]` congruent to `lo + 256*hi` modulo 65536. |
| PcmReceiver.SampleExpression | index.js:88 | The decoder's `((lo \| (hi << 8)) << 16) >> 16`, evaluated with JavaScript's operators, equals the reference sample. |
| PcmReceiver.DecodeAt | index.js:84-89 | Decoding `n` bytes gives `floor(n/2)` samples. Sample `k` depends only on bytes `2k` (low) and `2k+1` (high). A trailing odd byte is ignored. |
| PcmReceiver.SampleOfBytes | index.js:88 | A sample's little-endian bytes decode back to the sample. |
| PcmReceiver.BytesOfSample | index.js:88 | The little-endian bytes of a decoded sample are the two bytes it came from. |
| PcmReceiver.DecodeEncode | index.js:84-89 | Decoding the little-endian encoding of samples gives back the samples. |
| PcmReceiver.EncodeDecode | index.js:84-89 | Encoding the decoded samples gives back the input without its trailing odd byte. |
| PcmReceiver.AbsSumBounds | index.js:86-90 | The sum of magnitudes is between 0 and 32768 × the number of samples. |
| PcmReceiver.ReceivePcm | index.js:82-94 | A new array of `floor(n/2)` samples holding exactly `Decode` of the bytes. `sum` is exactly the sum of their magnitudes, with `0 <= sum <= 32768 * floor(n/2)`. |

## Left out

- Base64: `Base64.encodeToString` on the Java side and `atob` in JavaScript are library codecs. A payload is the raw buffer bytes, and the decoder starts from the decoded byte string.
- Android audio objects: `AudioRecord` and `AudioManager` are OS services. `getMinBufferSize` is a function parameter. Whether the `AudioRecord` constructor accepts its parameters, and whether `startRecording` succeeds, are `bool` parameters. The reads are a given sequence of results. Routing is an object with a mode and a speaker flag.
- Events: the React Native bridge, `RCTDeviceEventEmitter.emit`, `NativeEventEmitter`, `getName` and the JavaScript `AudioRecord.init/start/stop/on` wrappers (index.js:8-23) are plumbing. Emitted payloads are returned as a sequence.
- Threading: the thread runs concurrently with `start`/`stop`, and `isRecording` is shared unsynchronised. The loop is a sequential run over the reads performed while the flag was seen set. `RecordThread.Run` may be called once the thread is started.
- Option values: a JavaScript number with a fraction is modelled by the Java `int` that `getInt` returns for it. Option names other than the six that `init` reads are left out of the map, since `init` never looks at them.
- Memory: an `OutOfMemoryError` while allocating a huge buffer is not modelled. It is an `Error`, not an `Exception`, so the catch block would not see it.
- Exceptions thrown by `emit` are not told apart from exceptions thrown by `read`. Both are the `Raises` result of an iteration.
- Floating point: `PowerLevel` and `PowerDBFS` (index.js:39-78) rely on division, `Math.log` and `Math.round` on doubles.
- `FrequencyHistogramView` (index.js:132) is a UI module that is not part of this model.
- PcmReceiver.ReceivePcm: `sum` is an exact integer. A JavaScript double is exact only up to 2^53, far more than 32768 × the samples of any chunk.
- RecordLoop.WarmUpDiscard: stated for runs with fewer than 2^31 positive reads. Past that the Java `int` counter wraps. `Loop` models the wrap, and `CounterWrapPausesEmission` and `NoEmissionUpToTwo` state its effect.
- RecordLoop.EmittedChunks: the same bound of fewer than 2^31 positive reads.
- RecordLoop.LoopDropsWarmUp: requires a non-negative counter that does not reach 2^31 over the run.
