# AuroraFW audio module: stream engine, debug tone and device counting in Dafny

This project models the sequential core of the AuroraFW audio module:

- **The `AudioStream` transport state machine** (`play`, `pause`, `stop`, the status queries and the setters). Each operation is a pure transition on an immutable stream record. The record holds the status (`Play | Pause | Stop | CallbackStop`), the stored frame position, the looping flag, volume, pitch, the optional positional source and the open sound file with its read cursor. Each transition also reports the PortAudio stream requests it issues and the PortAudio error it throws, if any. The record tracks whether PortAudio considers the stream stopped, which decides those errors.
- **The real-time fill routine `audioCallback`** as a pure step function. It takes the stream state and the requested frame count. It returns the samples written, the new stream state and the PortAudio result code. Sample arithmetic is over `real`.
- **The 8-bit test-tone generator `debugCallback`**, with C's `uint8_t` wrap-around written out as `% 256`.
- **Device counting and filtering of the PortAudio backend.** The device table is a sequence of `(maxInputChannels, maxOutputChannels)` records. The model proves that the arrays sized at construction are written in bounds and come out exactly full.

Files:

- `wrappers.dfy`: `Option` and `Result`.
- `audio_types.dfy`: the state declared in `Audio.h`.
- `sndfile.dfy`: the libsndfile reading and seeking primitives, stated as assumptions.
- `positional.dfy`: the pan computation of `AudioSource` and the constructors and setter that run it.
- `callback.dfy`: `audioCallback` and playback to the end of a file.
- `transport.dfy`: the constructor, the destructor, the transport operations, the setters and the cross-operation properties.
- `debug_tone.dfy`: `debugCallback`.
- `backend.dfy`: the `AudioBackend` device functions.

## Assumptions about the libraries

- `sf_readf_int(h, buf, n)` returns min(n, frames − cursor) whole frames from the cursor on and advances the cursor by that many frames.
- `sf_seek(h, pos, SF_SEEK_SET)` moves the cursor when 0 ≤ pos ≤ frames. Otherwise it fails and leaves the cursor where it was. `sf_seek(h, 0, SF_SEEK_CUR)` returns the cursor.
- Any call on a null handle fails and changes nothing. A debug-mode stream calls `sf_seek` on a null handle in `play`.
- The PortAudio device table does not change between `Pa_Initialize` and `Pa_Terminate`, so the table `getOutputDevices` walks is the table the constructor counted.
- `Pa_StopStream` fails with `paStreamIsStopped` exactly when the PortAudio stream is already stopped, and `Pa_StartStream` fails with `paStreamIsNotStopped` exactly when it is not stopped. Otherwise both succeed. A stream is stopped from opening until a successful start, and again after a stop; a callback that returns `paComplete` does not stop it.
- `getPAError` (declared outside src/Audio.cpp, not part of this model) throws `PAErrorException` for every error result. The throw abandons the rest of the operation, and the fields written before it stay written.

## Behaviour of the code the model keeps

- `audioCallback` never writes `_streamPosFrame` when it reads frames (src/Audio.cpp:48-80); only the sound file's own cursor moves. The stored position is written only by `stop` (src/Audio.cpp:219), `setStreamPosFrame` (src/Audio.cpp:246) and a callback that finds the stream paused (src/Audio.cpp:44).
- `audioCallback` never reads `_looping` (src/Audio.cpp:73-80). Any short read, including the empty read of an exactly finished file, sets `CallbackStop` and returns `paComplete`. `Callback.LoopingIgnored` proves the flag is irrelevant.
- `play` seeks the file to `_streamPosFrame` from every state (src/Audio.cpp:206). So `pause` followed by `play` with no callback in between jumps back to the last stored position instead of continuing. `Transport.PauseThenPlayWithoutCallback` proves this.
- `play` on a paused stream calls `Pa_StopStream` before anything else (src/Audio.cpp:202-203). When the stream was paused without playing (a fresh or stopped stream), that call fails, and `play` throws with the stream still paused, unsought and stopped. Every later `play` fails the same way until `stop`. `Transport.PauseWhileStoppedSticks` proves this; see Findings.
- `play` on a playing stream seeks and then throws, because `Pa_StartStream` refuses a running stream (src/Audio.cpp:207). `stop` on a stopped stream writes its two fields and then throws (src/Audio.cpp:219-221).
- `pitch` is stored and never read. `setStreamPos` has an empty body (src/Audio.cpp:239-242). `calculateValues` computes only the pan (src/Audio.cpp:136-161): falloff and strength are never computed.
- On pause the callback stores the result of `sf_seek(h, 0, SF_SEEK_CUR)` in an `unsigned int` (src/Audio.cpp:44). The model stores `cursor % 2^32`.

## Model

| member | source | states |
|---|---|---|
| `SndFile.ReadFrames` | src/Audio.cpp:49 | A read returns at most the requested frames and at most the frames left, and it is either full or reaches the end of the file, so it returns min(requested, left) frames. It is short exactly when fewer frames are left than requested. It returns the samples between the old and the new cursor, and nothing else about the file changes. |
| `SndFile.SeekSet` | src/Audio.cpp:206 | An in-range seek on an open file moves the cursor there. An out-of-range seek, or any seek on a null handle, changes nothing. |
| `Positional.RightAxis` | src/Audio.cpp:142-153 | The listener's right axis is orthogonal to the listening direction and to the fixed up vector, and has no vertical component. |
| `Positional.CrossPerpendicular` | src/Audio.cpp:147-153 | The three hand-written components form a vector perpendicular to both operands, for all real inputs. |
| `Positional.RightAxisHorizontal` | src/Audio.cpp:142-152 | With the up vector fixed at (0, 1, 0), the right axis of a listener looking along (x, y, z) is (−z, 0, x): the vertical part of the direction plays no role. |
| `Positional.Pan` | src/Audio.cpp:136-161 | The pan is the dot product of the normalised right axis and the normalised direction from the listener to the source, and always lies in [−1, 1]. |
| `Positional.PanSign` | src/Audio.cpp:136-161 | The pan is positive exactly when the source lies on the listener's right-axis side, negative exactly when it lies on the other side, and 0 exactly when it lies on neither (ahead, behind, above or below the listener). |
| `Positional.FacingMinusZRightIsPlusX` | src/Audio.cpp:136-161 | A listener looking horizontally down −z has right axis +x, so a source pans right exactly when it has larger x than the listener and left exactly when smaller x. |
| `Positional.NewSource` | src/Audio.cpp:110-114 | The position constructors store the given position and the pan `calculateValues` computes for it against the current listener, which lies in [−1, 1]. |
| `Positional.SetPosition` | src/Audio.cpp:120-124 | `setPosition` stores the position and recomputes the pan for it against the current listener. The falloff kind and radii are unchanged. |
| `Positional.CopySource` | src/Audio.cpp:116-118 | The copy constructor copies falloff kind, position and radii. Its pan is recomputed for the copied position against the current listener, not copied. |
| `Positional.RecomputedPanIgnoresCache` | src/Audio.cpp:110-124 | The recomputation ignores the cached pan: the original's pan never reaches a copy, and a source moved by `setPosition` equals one constructed at the new position with the same falloff fields. A listener that moves later leaves every pan stale, since only these operations recompute it. |
| `Callback.ScaleChannelsSamples` | src/Audio.cpp:54-70 | The per-frame channel loop writes one sample per channel. Each sample is the raw sample times its channel's gain. |
| `Callback.ScaleChannels` | src/Audio.cpp:54-70 | The channel loop writes one value per raw sample of the frame. |
| `Callback.PanMultiplier` | src/Audio.cpp:58-65 | Defined as the source's multiplier: −0.5·pan + 0.5 for channel 0, 0.5·pan + 0.5 for channel 1, 1 for the others. `Callback.PanLaw` states its properties. |
| `Callback.SampleGain` | src/Audio.cpp:58-67 | Defined as the pan multiplier (1 without a source) times the volume. `Callback.GainByChannel` states its properties. |
| `Callback.ScaleFrames` | src/Audio.cpp:52-71 | The frame loop with a channel counter as wide as the channel count, which terminates for every channel count (the `uint8_t` counter of the source does not from 256 channels on, see Findings). It writes exactly as many samples as were read. |
| `Callback.ScaleFramesSamples` | src/Audio.cpp:52-71 | Interleaved output sample i is the raw sample times the gain of channel i mod channels. |
| `Callback.ScaleFramesAppend` | src/Audio.cpp:52-71 | Scaling whole frames commutes with concatenation, so splitting a file into buffers does not change the samples written. |
| `Callback.AudioCallback` | src/Audio.cpp:34-81 | **Paused:** writes nothing, stores the file position (as an `unsigned int`) and returns `paComplete`. **Otherwise:** reads min(`framesPerBuffer`, frames left) frames and writes `readFrames × channels` samples. A full read returns `paContinue` and keeps the status. A short read, including an empty one, sets `CallbackStop` and returns `paComplete`. In both cases nothing but the file cursor and the status changes. |
| `Callback.CallbackReadsSlice` | src/Audio.cpp:48-80 | A playing callback writes the scaled samples between the old and the new cursor. It completes exactly at the end of the file, with status `CallbackStop`, and otherwise only moves the cursor. |
| `Callback.CallbackSamples` | src/Audio.cpp:49-71 | Output sample i of a playing callback is the file's sample at cursor × channels + i, scaled by the gain of channel i mod channels. The read never runs past the file. |
| `Callback.PanLaw` | src/Audio.cpp:58-65 | For a pan in [−1, 1] the left and right multipliers sum to 1 and each lies in [0, 1]. Pan 1 gives 0/1, pan 0 gives ½/½, pan −1 gives 1/0. Channels from index 2 on get multiplier 1. |
| `Callback.PanMonotone` | src/Audio.cpp:61-64 | Raising the pan never raises the left multiplier and never lowers the right one. |
| `Callback.GainByChannel` | src/Audio.cpp:55-69 | Without a source every channel is scaled by the volume alone. With a source, channels ≥ 2 are scaled by the volume alone and the two stereo gains add up to the volume. |
| `Callback.LoopingIgnored` | src/Audio.cpp:73-80 | The looping flag has no effect on the samples, the result code or the resulting status. |
| `Callback.PlayUntilComplete` | src/Audio.cpp:73-80 | Invoking the callback with a list of positive buffer sizes, one per invocation and each of any size, until it reports completion: when the list is longer than the frames left, playback ends with `paComplete`. |
| `Callback.PlayUntilCompletePlaysRemainder` | src/Audio.cpp:48-80 | Playing to completion writes exactly the scaled remainder of the file, whatever positive sizes the successive buffers have. It leaves the cursor at the end of the file and the status at `CallbackStop`, and changes nothing else. |
| `Callback.PlaybackOutput` | src/Audio.cpp:48-80 | The output half of the previous row, by induction on the buffer list. |
| `Callback.PlaybackEndState` | src/Audio.cpp:73-80 | The end-state half of the previous rows, by induction on the buffer list. |
| `Callback.ChannelLoopAsWritten` | src/Audio.cpp:54 | Defined as the source's channel loop with its `uint8_t` counter, run with a step budget: `None` when the budget runs out before the counter reaches the channel count. |
| `Callback.ChannelLoopNeverExits` | src/Audio.cpp:54 | With 256 or more channels the `uint8_t` channel counter wraps before reaching the count, and the loop never exits. |
| `Callback.ChannelLoopExitsBelow256` | src/Audio.cpp:54 | With at most 255 channels the channel loop runs exactly once per channel. |
| `DebugTone.DebugCallback` | src/Audio.cpp:84-107 | Writes exactly 2 × framesPerBuffer bytes and returns 0 (`paContinue`). The left byte of frame i is min(i, 254). The right byte follows a 171-frame cycle (multiples of 3, then 254, then 1, 4, …, 253). Neither channel ever carries 255. |
| `DebugTone.LeftEarStep` | src/Audio.cpp:97-99 | One step of the left counter (add 1 with 8-bit wrap, then the correction) moves the reference ramp one frame on. |
| `DebugTone.RightEarStep` | src/Audio.cpp:101-103 | One step of the right counter (add 3 with 8-bit wrap, then the correction) moves the 171-frame reference cycle one frame on. |
| `DebugTone.LeftEarSticksAt254` | src/Audio.cpp:97-99 | From frame 254 on, the left byte stays at 254. In a 256-frame buffer, the last frame repeats 254 where a ramp would wrap to 0. |
| `DebugTone.DebugCallbackWrapped` | src/Audio.cpp:84-107 | With the correction subtracting 255, both channels are ramps over 0..254: the left byte is i mod 255 and the right byte is 3i mod 255. |
| `Transport.NewStream` | src/Audio.cpp:164-186 | A null or empty path gives debug mode: no file, and a 2-channel, 8-bit, 256-frame stream bound to the tone generator. Otherwise a missing file fails with `AudioFileNotFound(path)`, and a found one binds a 32-bit stream with the file's channel count to `audioCallback`. Every new stream is stopped, at frame 0, not looping, at volume and pitch 1. |
| `Transport.ClosesSoundFile` | src/Audio.cpp:188-192 | Defined as the destructor's test: a file is closed exactly when one is open. |
| `Transport.DebugStreamClosesNothing` | src/Audio.cpp:188-192 | The destructor closes a file exactly when the stream was not made in debug mode. |
| `Transport.StopRequest` | src/Audio.cpp:203 | `getPAError(Pa_StopStream(…))`: the stream ends stopped; the call throws `paStreamIsStopped` exactly when it was stopped already. |
| `Transport.StartRequest` | src/Audio.cpp:207 | `getPAError(Pa_StartStream(…))`: the stream ends running; the call throws `paStreamIsNotStopped` exactly when it was not stopped. |
| `Transport.Stop` | src/Audio.cpp:217-222 | From any state: stored position 0, status Stop, PortAudio stream stopped, one stop request. Nothing else changes. It throws exactly when the PortAudio stream was already stopped. |
| `Transport.Play` | src/Audio.cpp:198-208 | A drained or paused stream is stopped first. If that stop request fails, play throws with the stream as the failed stop left it: drained becomes Stop at position 0, paused stays untouched, with no seek and no start. Otherwise play ends in Play with the PortAudio stream running. From `CallbackStop` the stored position is rewound to 0 first. The file is sought to the stored position. The requests are stop (drained or paused only), then start. It then throws exactly when the stream was already playing. |
| `Transport.Pause` | src/Audio.cpp:210-215 | Only the status changes (to Pause). No request is issued. |
| `Transport.SetStreamPos` | src/Audio.cpp:239-242 | Changes nothing. |
| `Transport.SetStreamPosFrame` | src/Audio.cpp:244-247 | Changes the stored position and nothing else. |
| `Transport.SetLooping` | src/Audio.cpp:249-252 | Changes the looping flag and nothing else. |
| `Transport.SetAudioSource` | src/Audio.cpp:259-263 | Replaces the source with a copy of the given one: the same position and falloff fields, and the pan recomputed for that position against the current listener. Nothing else changes. |
| `Transport.IsPlaying` | src/Audio.cpp:224-227 | Defined as the status being Play. |
| `Transport.IsPaused` | src/Audio.cpp:229-232 | Defined as the status being Pause. |
| `Transport.IsStopped` | src/Audio.cpp:234-237 | Defined as the status being Stop. |
| `Transport.QueriesExclusive` | src/Audio.cpp:224-237 | At most one of isPlaying/isPaused/isStopped holds. All three are false exactly in `CallbackStop`. |
| `Transport.QueriesAfterTransport` | src/Audio.cpp:198-237 | After pause only isPaused holds, and after stop only isStopped. After play only isPlaying holds, unless play threw on its first stop request: then a paused stream still reports only isPaused and a drained one only isStopped. |
| `Transport.PauseIdempotent` | src/Audio.cpp:210-215 | Pausing twice is pausing once: status Pause, stored position unchanged. |
| `Transport.StopIdempotent` | src/Audio.cpp:217-222 | Stopping twice leaves the same state as stopping once, and the second stop throws `paStreamIsStopped`. |
| `Transport.StopThenPlayStartsAtZero` | src/Audio.cpp:198-222 | stop then play starts at frame 0 in Play with one start request and no error, whatever the previous position. |
| `Transport.DrainThenPlayStartsAtZero` | src/Audio.cpp:198-208 | After the callback drains a running stream, play rewinds the file to frame 0, issues stop then start without error, and ends in Play. |
| `Transport.ReplayAfterDrain` | src/Audio.cpp:198-208 | Playing a file to the end and pressing play again succeeds and plays the whole file again from its first sample, whatever positive buffer sizes either playback uses. |
| `Transport.PauseThenResume` | src/Audio.cpp:43-46 | pause during playback, one callback, play: the callback writes nothing and completes, and play resumes without error at exactly the frame where it paused. |
| `Transport.PauseThenPlayWithoutCallback` | src/Audio.cpp:198-215 | pause followed at once by play seeks the file to the previously stored position, not to where playback was. |
| `Transport.SetStreamPosFrameThenPlay` | src/Audio.cpp:244-247 | The next play seeks to the set position, or to 0 if the stream had drained. When play throws on its first stop request, the file stays where it was. |
| `Transport.PauseWhileStoppedSticks` | src/Audio.cpp:198-215 | pause on a stopped stream, then play: play throws `paStreamIsStopped` and leaves the stream paused and unchanged, so every further play throws too. |
| `Transport.PlayChecked` | src/Audio.cpp:198-208 | The corrected play, which issues a stop only for a running drained or paused stream and a start for every stream not already playing, and passes on any error those requests throw. None is thrown, so it always ends in Play with the stream running, sought as play seeks. |
| `Transport.PlayCheckedAgrees` | src/Audio.cpp:198-208 | The corrected play equals play exactly when play does not throw. Where play throws on its first stop request, only the corrected one ends playing. |
| `AudioTypes.InitialStream` | include/AuroraFW/Audio/Audio.h:103-112 | The default member initialisers give a stopped stream, whose freshly opened PortAudio stream is stopped too. It holds the given file and source, and is well formed exactly when they are. |
| `Transport.FreshStreamPassesSamplesThrough` | include/AuroraFW/Audio/Audio.h:103-112 | A new non-positional stream (volume 1) writes the file's samples unchanged, with samples taken as exact values. The source's float load at src/Audio.cpp:55 rounds samples wider than 24 significant bits. |
| `Transport.HalfVolumeScenario` | src/Audio.cpp:67 | Volume 0.5 on a non-positional stream turns a constant 1000 into 500 on every channel. |
| `Transport.EmptyFileDrainsAtOnce` | src/Audio.cpp:74-80 | Playing an empty file drains on the first callback: nothing is written, the result is `paComplete` and the status becomes `CallbackStop`. |
| `Backend.IsInputDevice` | src/AudioBackend.cpp:229-232 | Defined as having at least one input channel. |
| `Backend.IsOutputDevice` | src/AudioBackend.cpp:234-237 | Defined as having at least one output channel. |
| `Backend.FilterExact` | src/AudioBackend.cpp:229-237 | The filtered list holds only devices with channels on the requested side, and holds every such device of the table. The count never exceeds the table size. |
| `Backend.GetDevices` | src/AudioBackend.cpp:70-79 | `getDevices`/`getAllDevices` return one entry per device index, in order. |
| `Backend.CalcNumDevicesServing` | src/AudioBackend.cpp:81-107 | Starting from the device count and subtracting one per non-output (non-input) device gives the number of output (input) devices. The result lies between 0 and the device count. |
| `Backend.NewBackend` | src/AudioBackend.cpp:109-123 | The constructor's counts describe the table, and the output and input counts do not exceed the device count. |
| `Backend.CountPrefixMonotone` | src/AudioBackend.cpp:152-158 | The number of matching devices among the first i never exceeds the number in the whole table. This bounds the write index. |
| `Backend.GetDevicesServing` | src/AudioBackend.cpp:148-176 | Copies exactly the matching devices in index order into the array sized at construction. Every write index is in bounds and the array ends exactly full. |
| `Backend.GetInstance` | src/AudioBackend.cpp:134-141 | Constructs only when no instance exists. Otherwise it returns the stored instance. |
| `Backend.GetInstanceOnce` | src/AudioBackend.cpp:134-141 | A second call constructs nothing and returns the first instance, even if the device table has changed. |

## Left out

- The PortAudio and libsndfile calls themselves: opening, starting and stopping streams, `Pa_Initialize`/`Pa_Terminate`, `sf_open`/`sf_close` and `Pa_GetDeviceInfo`. These are foreign I/O. They appear as the abstract inputs and assumptions above (the file found for a path, the device table, the list of stream requests).
- Failures of `Pa_OpenDefaultStream`, and driver failures of `Pa_StartStream` and `Pa_StopStream` other than the two state errors modelled. The source turns them into thrown exceptions; they depend on driver state outside the model.
- The exception messages of `AudioFileNotFound` and `PAErrorException`. The file-not-found case is modelled as an error value carrying the path.
- Float arithmetic: the load of each sample into a `float` (src/Audio.cpp:55), the single-precision rounding of the gain products, and the float-to-int conversion of each written sample (src/Audio.cpp:69). Samples are exact reals.
- Transport.FreshStreamPassesSamplesThrough: holds over exact samples only. In the source, the `float` load at src/Audio.cpp:55 rounds any sample wider than 24 significant bits (32-bit PCM read through `sf_readf_int`), so 16777217 comes back as 16777216.
- Math::Vector3D is not part of this model. The length that `normalize` and `normalized` divide by (a square root) is a parameter of the pan computation, characterised by `Positional.IsLength`: it is never negative and its square is the vector's dot product with itself. The listener singleton `AudioListener::getInstance()` is passed in as a `Positional.Listener` value.
- Positional.Pan: requires non-degenerate geometry: the listener does not look straight up or down, and the source is not at the listener's position. Otherwise the source normalises a zero vector and stores a NaN pan, which a real-valued model cannot represent.
- Positional.NewSource: requires the same non-degenerate geometry as `Positional.Pan`, for the same reason.
- Positional.SetPosition: requires the same non-degenerate geometry as `Positional.Pan`, for the same reason.
- Positional.CopySource: requires the same non-degenerate geometry as `Positional.Pan`, for the same reason.
- Transport.SetAudioSource: requires the same non-degenerate geometry as `Positional.Pan`, for the same reason.
- Callback.AudioCallback: uses the corrected channel loop of `Callback.ScaleFrames`, whose counter is as wide as the channel count. The source's `uint8_t` counter never lets the callback return from 256 channels on (see Findings). For at most 255 channels the two agree, by `Callback.ChannelLoopExitsBelow256`.
- Callback.CallbackReadsSlice: built on `Callback.AudioCallback`, so it too describes the corrected channel loop.
- Callback.PlayUntilComplete: built on `Callback.AudioCallback`, so it too describes the corrected channel loop.
- Callback.PlayUntilCompletePlaysRemainder: built on `Callback.AudioCallback`, so it too describes the corrected channel loop.
- Callback.PlaybackOutput: built on `Callback.AudioCallback`, so it too describes the corrected channel loop.
- Callback.PlaybackEndState: built on `Callback.AudioCallback`, so it too describes the corrected channel loop.
- Transport.ReplayAfterDrain: built on `Callback.AudioCallback`, so it too describes the corrected channel loop.
- Logging: the `AuroraFW::Debug::Log` messages on entering debug mode (src/Audio.cpp:169) and on backend construction and teardown (src/AudioBackend.cpp:120-122, 131). They are output only and change no state.
- Concurrency between the control thread and the audio thread. Operations are modelled as interleaved sequential steps.
- The `audioCallback` stub in src/AudioBackend.cpp (an empty TODO) and the float `debugCallback` there (float arithmetic).
- Memory management (`new[]`/`delete` in the backend, `setAudioSource` and the destructor) and `getAudioSource`, which only returns the pointer.
- `audioLoopMode`, an uninitialised public field that nothing reads, and the falloff radii's meaning (strength is never computed).
- The `AudioDevice` accessors for name, host API, latencies and sample rate, the default-device constructor, and `isDefaultInputDevice`/`isDefaultOutputDevice`. These only forward PortAudio fields.
- `getNumDevices` and `calcNumDevices` are not part of this model. The device count is the length of the table, and a negative PortAudio error count is not modelled.
- The 32-bit `unsigned int` frame counters of both callbacks, which would wrap for buffers of 2^32 frames or more. Frame counts are unbounded naturals.
- The `int` conversion of the `sf_readf_int` result, which cannot lose information for buffer sizes PortAudio uses.

## Findings

| source | as written | input that shows it | evidently intended | confidence | as-written member | corrected member |
|---|---|---|---|---|---|---|
| src/Audio.cpp:97-103 | A counter that reaches 255 is corrected by subtracting −255, which adds 255 and so wraps to 254. The left counter therefore stays at 254 from frame 254 on. | framesPerBuffer = 256, the buffer size of debug streams: frame 255 has left byte 254, the same as frame 254 | Subtracting 255, so both counters ramp over 0..254 and wrap to 0. The float generator in src/AudioBackend.cpp:57-63 wraps the same way. | medium; not executed | `DebugTone.DebugCallback` with `DebugTone.LeftEarSticksAt254` | `DebugTone.DebugCallbackWrapped` |
| src/Audio.cpp:54 | The per-frame channel loop counts in a `uint8_t` and compares it with the file's channel count. | A 256-channel file played on a device that opens 256 output channels: the counter goes 254, 255, 0, … and the callback never returns. | A counter as wide as the channel count, so every channel of every frame is processed once. | low (the stream must first open with that many channels); not executed | `Callback.ChannelLoopAsWritten` with `Callback.ChannelLoopNeverExits` | `Callback.ScaleFrames` |
| src/Audio.cpp:198-215 | `pause` only sets the status, and `play` on a paused stream always calls `Pa_StopStream` first, through `getPAError`. | A fresh stream: `pause()`, then `play()`. `Pa_StopStream` on the never-started stream returns `paStreamIsStopped`, `play` throws, and the stream stays paused; every later `play()` throws again until `stop()`. | `play` after `pause` starts playback from any state: the stop request is issued only when the PortAudio stream is not already stopped. | medium; not executed | `Transport.Play` with `Transport.PauseWhileStoppedSticks` | `Transport.PlayChecked` with `Transport.PlayCheckedAgrees` |
