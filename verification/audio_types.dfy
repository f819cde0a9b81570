/** The state declared in Audio.h: the playback status enumeration, the
    positional source record and the stream record with its initial values.
    The libsndfile handle is abstracted as the decoded file plus its cursor. */
module AudioTypes {
  import opened Wrappers

  /** One more than the largest C `unsigned int` (32 bits). */
  const UINT_RANGE: int := 0x1_0000_0000

  /** A C `unsigned int`. */
  type UInt = x: int | 0 <= x < UINT_RANGE

  /** A C `uint8_t`. */
  type Byte = x: int | 0 <= x < 256

  /** The four transport states of a stream. */
  datatype AudioStatus = Play | Pause | Stop | CallbackStop

  /** Falloff curve kind of a positional source (stored, never used). */
  datatype AudioFallout = Linear | Exponencial

  datatype Vector3 = Vector3(x: real, y: real, z: real)

  /** A positional source. `pan` is the cached panning coefficient that
      every position change recomputes. */
  datatype AudioSource = AudioSource(
    falloutType: AudioFallout,
    position: Vector3,
    medDistance: real,
    maxDistance: real,
    pan: real)
  {
    /** The dot product of two unit vectors lies in [-1, 1]. */
    predicate PanInRange() {
      -1.0 <= pan <= 1.0
    }
  }

  /** An open libsndfile handle: the decoded interleaved integer samples of
      the file (`frames` frames of `channels` samples each, as reported in
      SF_INFO) and the handle's read cursor, counted in frames. */
  datatype SoundFile = SoundFile(channels: nat, frames: nat, samples: seq<int>, cursor: nat)
  {
    predicate Valid() {
      && channels > 0
      && |samples| == frames * channels
      && cursor <= frames
    }
  }

  /** The state of an AudioStream. `soundFile` is None in debug mode, where
      no file is ever opened. `paStopped` is PortAudio's own view of the
      opened stream (`Pa_IsStreamStopped`): true from opening until a
      successful `Pa_StartStream` and again after `Pa_StopStream`; a
      callback returning `paComplete` does not stop it. */
  datatype AudioStream = AudioStream(
    volume: real,
    pitch: real,
    soundFile: Option<SoundFile>,
    audioStatus: AudioStatus,
    streamPosFrame: UInt,
    looping: bool,
    audioSource: Option<AudioSource>,
    paStopped: bool)
  {
    /** The file and source are well formed; status Play is only ever set
        together with a start request, and status Stop with a stop request,
        so the PortAudio stream runs in the one and is stopped in the other. */
    predicate Valid() {
      && (soundFile.Some? ==> soundFile.value.Valid())
      && (audioSource.Some? ==> audioSource.value.PanInRange())
      && (audioStatus == Play ==> !paStopped)
      && (audioStatus == Stop ==> paStopped)
    }
  }

  /** The default member initialisers of AudioStream: volume and pitch 1,
      status Stop, stored cursor 0, looping disabled, and the freshly
      opened PortAudio stream is stopped; the constructor
      supplies the file (none in debug mode) and the source. The result is
      well formed exactly when they are. */
  function InitialStream(soundFile: Option<SoundFile>, audioSource: Option<AudioSource>): (s: AudioStream)
    ensures s.Valid() <==> (soundFile.Some? ==> soundFile.value.Valid()) && (audioSource.Some? ==> audioSource.value.PanInRange())
    ensures s.soundFile == soundFile && s.audioSource == audioSource
    ensures s.audioStatus == Stop && s.paStopped
  {
    AudioStream(1.0, 1.0, soundFile, Stop, 0, false, audioSource, true)
  }
}
