/** The native capture module's state: the recorder thread that `init`
    creates, `start` launches and `stop` signals and drops. */
module LiveAudioStream {
  import opened Common
  import opened CaptureConfig
  import opened RecordLoop

  /** AudioManager.MODE_IN_COMMUNICATION. */
  const MODE_IN_COMMUNICATION: int := 3

  /** The system-wide audio routing (the AudioManager service) that the
      recorder thread's constructor changes when speaker output is asked for.
      It is shared with the rest of the system and nothing here restores it. */
  class AudioRouting {
    var mode: int
    var speakerphoneOn: bool

    constructor (mode: int, speakerphoneOn: bool)
      ensures this.mode == mode && this.speakerphoneOn == speakerphoneOn
    {
      this.mode := mode;
      this.speakerphoneOn := speakerphoneOn;
    }
  }

  /** A lifecycle call the thread makes on its AudioRecord. */
  datatype RecorderCall = StartRecording | Stop | Release

  /** `recordingBufferSize = bufferSize * 3` in Java int arithmetic: the size
      of the recorder's internal buffer. */
  function DriverBufferSize(bufferSize: int32): (r: int32)
    ensures (r - 3 * bufferSize) % 0x1_0000_0000 == 0
    ensures -0x2AAA_AAAA <= bufferSize <= 0x2AAA_AAAA ==> r == 3 * bufferSize
  {
    Wrap32(bufferSize * 3)
  }

  /** The recorder thread and the AudioRecord it owns. */
  class RecordThread {
    const config: Config
    const bufferSize: int32
    const recordingBufferSize: int32
    var isRecording: bool
    var started: bool                    // Thread.start has been called
    var recorderPresent: bool            // the `recorder` field is not null
    var recorderCalls: seq<RecorderCall> // calls made on the recorder so far

    /** The constructor, once the AudioRecord was created with a driver buffer
        three times the read buffer. */
    constructor (config: Config)
      ensures this.config == config && bufferSize == config.bufferSize
      ensures recordingBufferSize == DriverBufferSize(config.bufferSize)
      ensures !isRecording && !started && recorderPresent && recorderCalls == []
    {
      this.config := config;
      bufferSize := config.bufferSize;
      recordingBufferSize := DriverBufferSize(config.bufferSize);
      isRecording := false;
      started := false;
      recorderPresent := true;
      recorderCalls := [];
    }

    /** Thread.start: a thread may be started only once (a second call throws). */
    method Launch()
      requires !started
      modifies this`started
      ensures started
    {
      started := true;
    }

    /** `run`, on the thread: start the recorder, run the capture loop over
        the reads it performs, stop the recorder if the loop ended normally,
        and release it in every case. When `startRecording` throws (the
        recorder was never initialised) the exception leaves `run` before the
        try block, and the recorder is not released. */
    method Run(startsRecording: bool, results: seq<ReadResult>) returns (emitted: seq<seq<byte>>)
      requires started && recorderPresent && recorderCalls == []
      requires bufferSize >= 0 ==> ReadsFit(results, bufferSize)
      modifies this`recorderCalls, this`recorderPresent
      ensures !startsRecording ==> emitted == [] && recorderCalls == [StartRecording] && recorderPresent
      ensures startsRecording ==>
                var (chunks, exit) := Capture(bufferSize, results);
                && emitted == chunks
                && recorderCalls == [StartRecording] + (if exit == Normal then [Stop] else []) + [Release]
                && !recorderPresent
    {
      recorderCalls := recorderCalls + [StartRecording];
      if !startsRecording {
        return [];
      }
      var exit;
      emitted, exit := RunLoop(bufferSize, results);
      if exit == Normal {
        recorderCalls := recorderCalls + [Stop];
      }
      // finally
      recorderCalls := recorderCalls + [Release];
      recorderPresent := false;
    }
  }

  datatype InitFailure = BadOption(key: Key) | RecorderRejected

  /** The native module: at most one current recorder thread. */
  class LiveAudioStreamModule {
    var recordThread: RecordThread?
    const routing: AudioRouting

    /** The current thread was launched exactly when its flag is set, so
        `start` never launches a thread twice. */
    ghost predicate Valid()
      reads this, recordThread
    {
      recordThread != null ==> (recordThread.started <==> recordThread.isRecording)
    }

    constructor (routing: AudioRouting)
      ensures this.routing == routing && recordThread == null && Valid()
    {
      this.routing := routing;
      recordThread := null;
    }

    /** `init`: normalise the options, route audio to the speaker if asked,
        and replace the current thread by a new one. `recorderCreated` is
        whether the AudioRecord constructor accepted the parameters; when it
        throws, the routing has already changed and the old thread stays.
        A thread that was replaced is left as it was, running if it ran. */
    method Init(options: Options, minBufferSize: MinBufferSize, recorderCreated: bool) returns (failure: Option<InitFailure>)
      requires Valid()
      modifies this`recordThread, routing
      ensures Valid()
      ensures old(recordThread) != null ==> unchanged(old(recordThread))
      ensures Normalise(options, minBufferSize).Err? ==>
                && failure == Some(BadOption(Normalise(options, minBufferSize).error.key))
                && recordThread == old(recordThread) && unchanged(routing)
      ensures Normalise(options, minBufferSize).Ok? ==>
                var c := Normalise(options, minBufferSize).value;
                && (c.speakerPhoneOn ==> routing.mode == MODE_IN_COMMUNICATION && routing.speakerphoneOn)
                && (!c.speakerPhoneOn ==> unchanged(routing))
                && (!recorderCreated ==> failure == Some(RecorderRejected) && recordThread == old(recordThread))
                && (recorderCreated ==>
                      && failure == None && recordThread != null && fresh(recordThread)
                      && recordThread.config == c && recordThread.bufferSize == c.bufferSize
                      && recordThread.recordingBufferSize == DriverBufferSize(c.bufferSize)
                      && !recordThread.isRecording && !recordThread.started
                      && recordThread.recorderPresent && recordThread.recorderCalls == [])
    {
      var normalised := Normalise(options, minBufferSize);
      if normalised.Err? {
        return Some(BadOption(normalised.error.key));
      }
      var config := normalised.value;
      if config.speakerPhoneOn {
        routing.mode := MODE_IN_COMMUNICATION;
        routing.speakerphoneOn := true;
      }
      if !recorderCreated {
        return Some(RecorderRejected);
      }
      recordThread := new RecordThread(config);
      failure := None;
    }

    /** `start`: nothing happens without a thread or while it is recording;
        otherwise the flag is set and the thread launched. */
    method Start()
      requires Valid()
      modifies recordThread
      ensures Valid() && recordThread == old(recordThread)
      ensures recordThread != null && !old(recordThread.isRecording) ==>
                && recordThread.isRecording && recordThread.started
                && recordThread.recorderCalls == old(recordThread.recorderCalls)
                && recordThread.recorderPresent == old(recordThread.recorderPresent)
      ensures recordThread != null && old(recordThread.isRecording) ==> unchanged(recordThread)
    {
      if recordThread == null || recordThread.isRecording {
        return;
      }
      recordThread.isRecording := true;
      recordThread.Launch();
    }

    /** `stop`: clear the thread's flag (its loop ends after the current read)
        and drop the reference. The routing is not restored. */
    method Stop()
      requires Valid()
      modifies this`recordThread, recordThread
      ensures recordThread == null && Valid()
      ensures unchanged(routing)
      ensures old(recordThread) != null ==>
                && !old(recordThread).isRecording
                && old(recordThread).started == old(recordThread.started)
                && old(recordThread).recorderCalls == old(recordThread.recorderCalls)
                && old(recordThread).recorderPresent == old(recordThread.recorderPresent)
    {
      if recordThread != null {
        recordThread.isRecording := false;
        recordThread := null;
      }
    }

    /** After `stop`, a `start` does nothing until `init` runs again, and a
        second `stop` changes nothing either. */
    method StopThenStart()
      requires Valid()
      modifies this`recordThread, recordThread
      ensures recordThread == null && Valid()
      ensures old(recordThread) != null ==> !old(recordThread).isRecording
      ensures old(recordThread) != null ==> old(recordThread).started == old(recordThread.started)
    {
      Stop();
      Start();
      Stop();
    }
  }
}
