/** The control side of AudioStream in Audio.cpp: construction, destruction,
    the transport operations play/pause/stop, the status queries and the
    setters. Each operation is a pure transition on the stream record that
    also reports the PortAudio stream requests it issues, in order, and the
    PortAudio error it throws, if any. */
module Transport {
  import opened Wrappers
  import opened AudioTypes
  import opened SndFile
  import Positional
  import opened Callback

  /** PortAudio stream requests issued by the control operations. */
  datatype PaRequest = PaStartStream | PaStopStream

  /** The PortAudio errors a stream request can meet here: stopping a stream
      that is already stopped, and starting one that is not stopped. */
  datatype PaError = StreamIsStopped | StreamIsNotStopped

  /** The result of a control operation: the state the stream is left in,
      the requests issued in order, and the error `getPAError` throws, if
      any. A throw abandons the rest of the operation, but the fields it had
      already written stay written. */
  datatype Step = Step(stream: AudioStream, requests: seq<PaRequest>, thrown: Option<PaError>)

  /** Sample format of the opened PortAudio stream. */
  datatype SampleFormat = UInt8 | Int32

  /** Which callback the stream is bound to. */
  datatype CallbackKind = DebugTone | FileAudio

  /** The arguments of the `Pa_OpenDefaultStream` call; a framesPerBuffer of
      None is `paFramesPerBufferUnspecified`. */
  datatype OpenRequest = OpenRequest(inputChannels: nat, outputChannels: nat, format: SampleFormat,
                                     framesPerBuffer: Option<nat>, callback: CallbackKind)

  /** The thrown `AudioFileNotFound`. */
  datatype StreamError = AudioFileNotFound(path: string)

  datatype Opened = Opened(stream: AudioStream, request: OpenRequest)

  /** Debug mode: a null or empty path. */
  predicate IsDebugPath(path: Option<string>) {
    path.None? || path.value == ""
  }

  /** The constructor. `file` is what `sf_open` gives for the path (None
      when the file is missing or unreadable); it is consulted only outside
      debug mode. Debug mode opens no file and binds the 8-bit debug tone
      generator to a 2-channel stream of 256-frame buffers. */
  function NewStream(path: Option<string>, file: Option<SoundFile>, source: Option<AudioSource>): (r: Result<Opened, StreamError>)
    requires file.Some? ==> file.value.Valid() && file.value.cursor == 0
    requires source.Some? ==> source.value.PanInRange()
    ensures r.Success? ==> r.value.stream.Valid()
    ensures r.Failure? <==> !IsDebugPath(path) && file.None?
    ensures r.Failure? ==> r.error == AudioFileNotFound(path.value)
    ensures r.Success? ==>
      var s := r.value.stream;
      && s.audioStatus == AudioStatus.Stop && s.streamPosFrame == 0 && !s.looping
      && s.volume == 1.0 && s.pitch == 1.0
      && s.audioSource == source
      && (IsDebugPath(path) ==>
            s.soundFile.None? && r.value.request == OpenRequest(0, 2, UInt8, Some(256), DebugTone))
      && (!IsDebugPath(path) ==>
            s.soundFile == file && r.value.request == OpenRequest(0, file.value.channels, Int32, None, FileAudio))
  {
    if IsDebugPath(path) then
      Success(Opened(InitialStream(None, source), OpenRequest(0, 2, UInt8, Some(256), DebugTone)))
    else if file.None? then
      Failure(AudioFileNotFound(path.value))
    else
      Success(Opened(InitialStream(file, source),
                     OpenRequest(0, file.value.channels, Int32, None, FileAudio)))
  }

  /** The destructor closes the sound file exactly when one is open. */
  function ClosesSoundFile(s: AudioStream): bool {
    s.soundFile.Some?
  }

  /** A debug-mode stream never opens a file, so destroying it closes none;
      a stream bound to a file closes it. */
  lemma DebugStreamClosesNothing(path: Option<string>, file: Option<SoundFile>, source: Option<AudioSource>)
    requires file.Some? ==> file.value.Valid() && file.value.cursor == 0
    requires source.Some? ==> source.value.PanInRange()
    ensures var r := NewStream(path, file, source);
            r.Success? ==> (ClosesSoundFile(r.value.stream) <==> !IsDebugPath(path))
  {
  }

  /** `getPAError(Pa_StopStream(_paStream))`: PortAudio refuses to stop a
      stream that is already stopped; either way the stream ends stopped. */
  function StopRequest(s: AudioStream): (r: Step)
    ensures r.stream == s.(paStopped := true) && r.requests == [PaStopStream]
    ensures r.thrown.Some? <==> s.paStopped
    ensures r.thrown.Some? ==> r.thrown.value == StreamIsStopped
  {
    Step(s.(paStopped := true), [PaStopStream], if s.paStopped then Some(StreamIsStopped) else None)
  }

  /** `getPAError(Pa_StartStream(_paStream))`: PortAudio refuses to start a
      stream that is not stopped; either way the stream ends running. */
  function StartRequest(s: AudioStream): (r: Step)
    ensures r.stream == s.(paStopped := false) && r.requests == [PaStartStream]
    ensures r.thrown.Some? <==> !s.paStopped
    ensures r.thrown.Some? ==> r.thrown.value == StreamIsNotStopped
  {
    Step(s.(paStopped := false), [PaStartStream], if s.paStopped then None else Some(StreamIsNotStopped))
  }

  /** `stop`: from any state, rewinds the stored position to frame 0, sets
      status Stop and stops the PortAudio stream. On a stream that is
      already stopped (a fresh one, or one stopped before) the request
      fails and `stop` throws, after both fields have been written. */
  function Stop(s: AudioStream): (r: Step)
    requires s.Valid()
    ensures r.stream.Valid()
    ensures r.stream.audioStatus == AudioStatus.Stop && r.stream.streamPosFrame == 0 && r.stream.paStopped
    ensures r.requests == [PaStopStream]
    ensures r.stream == s.(audioStatus := AudioStatus.Stop, streamPosFrame := 0, paStopped := true)
    ensures r.thrown.Some? <==> s.paStopped
    ensures r.thrown.Some? ==> r.thrown.value == StreamIsStopped
  {
    StopRequest(s.(streamPosFrame := 0, audioStatus := AudioStatus.Stop))
  }

  /** The states in which `play` throws before changing the status: a
      drained or paused stream whose PortAudio stream is already stopped,
      so the stop request `play` issues first fails. */
  predicate PlayAborts(s: AudioStream) {
    s.audioStatus in {AudioStatus.CallbackStop, AudioStatus.Pause} && s.paStopped
  }

  /** `play`: a stream drained by the callback is first stopped (rewound); a
      paused one has its PortAudio stream stopped. Then the status becomes
      Play, the file is sought to the stored position and the PortAudio
      stream is started.
      - When that first stop request fails (`PlayAborts`), `play` throws with
        the stream left as the failed `stop` left it (drained) or untouched
        (paused): no seek and no start.
      - Otherwise `play` ends in Play, sought and running; it throws only
        when the stream was already playing, since starting a running
        PortAudio stream fails. */
  function Play(s: AudioStream): (r: Step)
    requires s.Valid()
    ensures r.stream.Valid()
    ensures PlayAborts(s) ==>
      && r.thrown == Some(StreamIsStopped) && r.requests == [PaStopStream]
      && r.stream == (if s.audioStatus == AudioStatus.CallbackStop
                      then s.(audioStatus := AudioStatus.Stop, streamPosFrame := 0) else s)
    ensures !PlayAborts(s) ==>
      && r.stream.audioStatus == AudioStatus.Play && !r.stream.paStopped
      && r.stream.streamPosFrame == (if s.audioStatus == AudioStatus.CallbackStop then 0 else s.streamPosFrame)
      && r.stream.soundFile == SeekSet(s.soundFile, r.stream.streamPosFrame)
      && r.stream == s.(audioStatus := AudioStatus.Play, streamPosFrame := r.stream.streamPosFrame,
                        soundFile := r.stream.soundFile, paStopped := false)
      && r.requests == (if s.audioStatus in {AudioStatus.CallbackStop, AudioStatus.Pause} then [PaStopStream] else [])
                       + [PaStartStream]
      && (r.thrown.Some? <==> s.audioStatus == AudioStatus.Play)
      && (r.thrown.Some? ==> r.thrown.value == StreamIsNotStopped)
  {
    var before :=
      if s.audioStatus == AudioStatus.CallbackStop then Stop(s)
      else if s.audioStatus == AudioStatus.Pause then StopRequest(s)
      else Step(s, [], None);
    if before.thrown.Some? then before
    else
      var t := before.stream;
      var start := StartRequest(t.(audioStatus := AudioStatus.Play, soundFile := SeekSet(t.soundFile, t.streamPosFrame)));
      Step(start.stream, before.requests + start.requests, start.thrown)
  }

  /** `pause`: only sets the status; the callback notices it, stores the file
      position and completes the PortAudio stream. */
  function Pause(s: AudioStream): (r: Step)
    requires s.Valid()
    ensures r.stream.Valid()
    ensures r.stream == s.(audioStatus := AudioStatus.Pause) && r.requests == [] && r.thrown.None?
  {
    Step(s.(audioStatus := AudioStatus.Pause), [], None)
  }

  predicate IsPlaying(s: AudioStream) {
    s.audioStatus == AudioStatus.Play
  }

  predicate IsPaused(s: AudioStream) {
    s.audioStatus == AudioStatus.Pause
  }

  predicate IsStopped(s: AudioStream) {
    s.audioStatus == AudioStatus.Stop
  }

  /** `setStreamPos` is declared but empty: it changes nothing. */
  function SetStreamPos(s: AudioStream, pos: UInt): (r: AudioStream)
    ensures r == s
  {
    s
  }

  /** `setStreamPosFrame` changes the stored position and nothing else; the
      file is only sought to it by the next `play`. */
  function SetStreamPosFrame(s: AudioStream, pos: UInt): (r: AudioStream)
    requires s.Valid()
    ensures r.Valid()
    ensures r.streamPosFrame == pos
    ensures r.(streamPosFrame := s.streamPosFrame) == s
  {
    s.(streamPosFrame := pos)
  }

  /** `setLooping` stores the flag and changes nothing else. */
  function SetLooping(s: AudioStream, looping: bool): (r: AudioStream)
    requires s.Valid()
    ensures r.Valid()
    ensures r.looping == looping
    ensures r.(looping := s.looping) == s
  {
    s.(looping := looping)
  }

  /** `setAudioSource` replaces the source with a copy of the given one, whose
      pan the copy constructor recomputes for the listener as it is now. */
  function SetAudioSource(s: AudioStream, source: AudioSource, listener: Positional.Listener,
                          length: Vector3 -> real): (r: AudioStream)
    requires s.Valid() && Positional.IsLength(length) && Positional.NonDegenerate(listener, source.position)
    ensures r.Valid()
    ensures r.audioSource.Some?
    ensures r.audioSource.value.position == source.position
    ensures r.audioSource.value.falloutType == source.falloutType
    ensures r.audioSource.value.medDistance == source.medDistance
    ensures r.audioSource.value.maxDistance == source.maxDistance
    ensures r.audioSource.value.pan == Positional.Pan(listener, source.position, length)
    ensures r.(audioSource := s.audioSource) == s
  {
    s.(audioSource := Some(Positional.CopySource(source, listener, length)))
  }

  /** The status queries are mutually exclusive, and a stream drained by the
      callback answers false to all three. */
  lemma QueriesExclusive(s: AudioStream)
    ensures !(IsPlaying(s) && IsPaused(s)) && !(IsPlaying(s) && IsStopped(s)) && !(IsPaused(s) && IsStopped(s))
    ensures !IsPlaying(s) && !IsPaused(s) && !IsStopped(s) <==> s.audioStatus == AudioStatus.CallbackStop
  {
  }

  /** Each transport operation is observed by the matching query, except a
      `play` that throws on its first stop request: a paused stream then
      still reports paused, and a drained one reports stopped. */
  lemma QueriesAfterTransport(s: AudioStream)
    requires s.Valid()
    ensures !PlayAborts(s) ==> IsPlaying(Play(s).stream) && !IsPaused(Play(s).stream) && !IsStopped(Play(s).stream)
    ensures PlayAborts(s) && s.audioStatus == AudioStatus.Pause ==>
              IsPaused(Play(s).stream) && !IsPlaying(Play(s).stream) && !IsStopped(Play(s).stream)
    ensures PlayAborts(s) && s.audioStatus == AudioStatus.CallbackStop ==>
              IsStopped(Play(s).stream) && !IsPlaying(Play(s).stream) && !IsPaused(Play(s).stream)
    ensures IsPaused(Pause(s).stream) && !IsPlaying(Pause(s).stream) && !IsStopped(Pause(s).stream)
    ensures IsStopped(Stop(s).stream) && !IsPlaying(Stop(s).stream) && !IsPaused(Stop(s).stream)
  {
  }

  /** Pausing twice is the same as pausing once. */
  lemma PauseIdempotent(s: AudioStream)
    requires s.Valid()
    ensures Pause(Pause(s).stream) == Pause(s)
  {
  }

  /** Stopping twice leaves the same state as stopping once, but the second
      stop asks PortAudio to stop a stopped stream and so throws. */
  lemma StopIdempotent(s: AudioStream)
    requires s.Valid()
    ensures Stop(Stop(s).stream).stream == Stop(s).stream
    ensures Stop(Stop(s).stream).thrown == Some(StreamIsStopped)
  {
  }

  /** stop followed by play starts from frame 0, whatever the cursor was. */
  lemma StopThenPlayStartsAtZero(s: AudioStream)
    requires s.Valid()
    ensures var p := Play(Stop(s).stream);
            && p.stream.audioStatus == AudioStatus.Play
            && p.stream.streamPosFrame == 0
            && (p.stream.soundFile.Some? ==> p.stream.soundFile.value.cursor == 0)
            && p.requests == [PaStartStream] && p.thrown.None?
  {
  }

  /** After the callback has drained the file of a running stream, play
      rewinds to frame 0 by stopping first, then restarts the PortAudio
      stream. (PortAudio invokes the callback only on a started stream.) */
  lemma DrainThenPlayStartsAtZero(s: AudioStream, framesPerBuffer: nat)
    requires s.Valid() && s.soundFile.Some? && s.audioStatus != AudioStatus.Pause && !s.paStopped
    requires AudioCallback(s, framesPerBuffer).code == Complete
    ensures var p := Play(AudioCallback(s, framesPerBuffer).stream);
            && p.stream.audioStatus == AudioStatus.Play
            && p.stream.streamPosFrame == 0
            && p.stream.soundFile.value.cursor == 0
            && p.requests == [PaStopStream, PaStartStream] && p.thrown.None?
  {
  }

  /** Playing a file to its end and pressing play again plays the whole file
      once more from the first frame, whatever buffer sizes either playback
      is driven with. The PortAudio stream is running, as it is whenever
      the callback is invoked. */
  lemma ReplayAfterDrain(s: AudioStream, first: seq<nat>, second: seq<nat>)
    requires s.Valid() && s.soundFile.Some? && s.audioStatus != AudioStatus.Pause && !s.paStopped
    requires forall i :: 0 <= i < |first| ==> first[i] > 0
    requires forall i :: 0 <= i < |second| ==> second[i] > 0
    requires |first| > s.soundFile.value.frames - s.soundFile.value.cursor
    requires |second| > s.soundFile.value.frames
    ensures var drained := PlayUntilComplete(s, first).stream;
            var replay := Play(drained).stream;
            && Play(drained).thrown.None? && replay.soundFile.value.cursor == 0
            && PlayUntilComplete(replay, second).output
               == ScaleFrames(s.soundFile.value.samples, s.soundFile.value.channels, s.audioSource, s.volume)
  {
    var f := s.soundFile.value;
    PlayUntilCompletePlaysRemainder(s, first);
    var drained := PlayUntilComplete(s, first).stream;
    assert drained == s.(soundFile := Some(f.(cursor := f.frames)), audioStatus := AudioStatus.CallbackStop);
    var replay := Play(drained).stream;
    assert replay.soundFile == Some(f.(cursor := 0));
    assert replay.audioSource == s.audioSource && replay.volume == s.volume;
    PlayUntilCompletePlaysRemainder(replay, second);
    assert f.samples[0 * f.channels ..] == f.samples;
  }

  /** pause during playback, a callback, then play: the callback stores the
      file position and writes nothing, and play resumes exactly where
      playback was (for files shorter than 2^32 frames, the range of the
      stored position). Pausing a stream that is not playing is
      `PauseWhileStoppedSticks`. */
  lemma PauseThenResume(s: AudioStream, framesPerBuffer: nat)
    requires s.Valid() && s.soundFile.Some? && s.audioStatus == AudioStatus.Play
    requires s.soundFile.value.cursor < UINT_RANGE
    ensures var r := AudioCallback(Pause(s).stream, framesPerBuffer);
            var p := Play(r.stream);
            && r.output == [] && r.code == Complete
            && p.stream.audioStatus == AudioStatus.Play
            && p.stream.soundFile == s.soundFile
            && p.stream.streamPosFrame == s.soundFile.value.cursor
            && p.requests == [PaStopStream, PaStartStream] && p.thrown.None?
  {
  }

  /** pause followed by play with no callback in between seeks the file to
      the stored position, which only a paused callback updates: playback
      jumps back to where it last paused (frame 0 if it never did) instead
      of continuing. */
  lemma PauseThenPlayWithoutCallback(s: AudioStream)
    requires s.Valid() && s.soundFile.Some? && s.audioStatus == AudioStatus.Play
    requires s.streamPosFrame <= s.soundFile.value.frames
    ensures Play(Pause(s).stream).stream.soundFile.value.cursor == s.streamPosFrame
  {
  }

  /** The only way the stored position reaches the file: play after
      setStreamPosFrame seeks to the new position (when it lies in the
      file), unless the stream was drained, in which case play rewinds to 0,
      or play throws before seeking, in which case the file stays put. */
  lemma SetStreamPosFrameThenPlay(s: AudioStream, pos: UInt)
    requires s.Valid() && s.soundFile.Some? && pos <= s.soundFile.value.frames
    ensures var p := Play(SetStreamPosFrame(s, pos)).stream;
            p.soundFile.value.cursor
              == if PlayAborts(s) then s.soundFile.value.cursor
                 else if s.audioStatus == AudioStatus.CallbackStop then 0
                 else pos
  {
  }

  /** pause on a stream that is not playing (a fresh or stopped one), then
      play: the stop request `play` issues for a paused stream meets a
      stopped PortAudio stream and throws before anything is written. The
      stream stays paused, unsought and stopped, so every further play
      throws the same way until `stop` is called. */
  lemma PauseWhileStoppedSticks(s: AudioStream)
    requires s.Valid() && s.audioStatus == AudioStatus.Stop
    ensures var p := Pause(s).stream;
            && Play(p).thrown == Some(StreamIsStopped)
            && Play(p).stream == p && IsPaused(Play(p).stream)
            && Play(Play(p).stream) == Play(p)
  {
  }

  /** The corrected play: each PortAudio request is issued only when the
      stream is in the state PortAudio requires for it (as
      `Pa_IsStreamStopped` would tell). It passes on any error its requests
      throw, as play does, and none of them throws, so it always ends in
      Play: a stop only for a running drained or paused stream, a start for
      every stream that was not already playing. */
  function PlayChecked(s: AudioStream): (r: Step)
    requires s.Valid()
    ensures r.stream.Valid() && r.thrown.None?
    ensures r.stream.audioStatus == AudioStatus.Play && !r.stream.paStopped
    ensures r.stream.streamPosFrame == if s.audioStatus == AudioStatus.CallbackStop then 0 else s.streamPosFrame
    ensures r.stream.soundFile == SeekSet(s.soundFile, r.stream.streamPosFrame)
    ensures r.requests ==
      (if s.audioStatus in {AudioStatus.CallbackStop, AudioStatus.Pause} && !s.paStopped then [PaStopStream] else [])
      + (if s.audioStatus != AudioStatus.Play then [PaStartStream] else [])
  {
    var t := if s.audioStatus == AudioStatus.CallbackStop
             then s.(streamPosFrame := 0, audioStatus := AudioStatus.Stop) else s;
    var before :=
      if s.audioStatus in {AudioStatus.CallbackStop, AudioStatus.Pause} && !t.paStopped then StopRequest(t)
      else Step(t, [], None);
    var u := before.stream.(audioStatus := AudioStatus.Play, soundFile := SeekSet(before.stream.soundFile, before.stream.streamPosFrame));
    var after := if u.paStopped then StartRequest(u) else Step(u, [], None);
    if before.thrown.Some? then before
    else Step(after.stream, before.requests + after.requests, after.thrown)
  }

  /** The corrected play does exactly what play does whenever play does not
      throw, and differs from it exactly when play throws. */
  lemma PlayCheckedAgrees(s: AudioStream)
    requires s.Valid()
    ensures PlayChecked(s) == Play(s) <==> Play(s).thrown.None?
    ensures PlayAborts(s) ==> IsPlaying(PlayChecked(s).stream) && !IsPlaying(Play(s).stream)
  {
  }

  /** A freshly constructed, non-positional stream plays its file unscaled:
      the first buffer holds the file's first samples exactly. */
  lemma FreshStreamPassesSamplesThrough(path: string, file: SoundFile, framesPerBuffer: nat)
    requires path != "" && file.Valid() && file.cursor == 0
    ensures var s := NewStream(Some(path), Some(file), None).value.stream;
            var out := AudioCallback(Play(s).stream, framesPerBuffer).output;
            |out| <= |file.samples|
            && forall i :: 0 <= i < |out| ==> out[i] == file.samples[i] as real
  {
    var s := NewStream(Some(path), Some(file), None).value.stream;
    var p := Play(s).stream;
    assert p.soundFile == Some(file) && p.audioSource.None? && p.volume == 1.0;
    CallbackSamples(p, framesPerBuffer);
    var out := AudioCallback(p, framesPerBuffer).output;
    forall i | 0 <= i < |out| ensures out[i] == file.samples[i] as real {
      assert out[i] == ScaleSample(file.samples[0 * file.channels + i], i % file.channels, None, 1.0);
    }
  }

  /** A volume of 0.5 on a non-positional stream turns a constant sample of
      1000 into 500 on every channel. */
  lemma HalfVolumeScenario(s: AudioStream, framesPerBuffer: nat)
    requires s.Valid() && s.soundFile.Some? && s.audioStatus != AudioStatus.Pause
    requires s.audioSource.None? && s.volume == 0.5
    requires forall j :: 0 <= j < |s.soundFile.value.samples| ==> s.soundFile.value.samples[j] == 1000
    ensures var out := AudioCallback(s, framesPerBuffer).output;
            forall i :: 0 <= i < |out| ==> out[i] == 500.0
  {
    CallbackSamples(s, framesPerBuffer);
  }

  /** Playing an empty file drains on the first callback that asks for any
      frames: nothing is written and the status becomes CallbackStop. */
  lemma EmptyFileDrainsAtOnce(path: string, channels: nat, framesPerBuffer: nat)
    requires path != "" && channels > 0 && framesPerBuffer > 0
    ensures var file := SoundFile(channels, 0, [], 0);
            var s := NewStream(Some(path), Some(file), None).value.stream;
            var r := AudioCallback(Play(s).stream, framesPerBuffer);
            r.output == [] && r.code == Complete && r.stream.audioStatus == AudioStatus.CallbackStop
  {
  }
}
