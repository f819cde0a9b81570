/** `audioCallback` of Audio.cpp as a pure step: given the stream state (which
    holds the open sound file and its cursor) and the number of frames the
    backend asks for, it yields the samples written to the output buffer, the
    new stream state and the PortAudio result code.

    Samples are scaled over `real`: the float products of the source and the
    final float-to-int conversion of each written sample are not modelled. */
module Callback {
  import opened Wrappers
  import opened AudioTypes
  import opened SndFile

  /** The PortAudio callback result codes `paContinue` and `paComplete`. */
  datatype CallbackCode = Continue | Complete

  /** The pan law: the multiplier a positional source applies to channel
      `channel` of a frame. Only the first two channels are panned. */
  function PanMultiplier(channel: nat, pan: real): real {
    if channel == 0 then -0.5 * pan + 0.5
    else if channel == 1 then 0.5 * pan + 0.5
    else 1.0
  }

  /** The total factor applied to a raw sample of channel `channel`. */
  function SampleGain(channel: nat, source: Option<AudioSource>, volume: real): real {
    (if source.Some? then PanMultiplier(channel, source.value.pan) else 1.0) * volume
  }

  /** The value written for raw sample `raw` of channel `channel`. */
  function ScaleSample(raw: int, channel: nat, source: Option<AudioSource>, volume: real): real {
    raw as real * SampleGain(channel, source, volume)
  }

  /** The inner loop over the channels of one frame; `first` is the channel
      index of `raw[0]`. */
  function ScaleChannels(raw: seq<int>, first: nat, source: Option<AudioSource>, volume: real): (out: seq<real>)
    ensures |out| == |raw|
    decreases |raw|
  {
    if |raw| == 0 then []
    else [ScaleSample(raw[0], first, source, volume)] + ScaleChannels(raw[1..], first + 1, source, volume)
  }

  /** Each channel's sample is scaled by that channel's gain. */
  lemma {:induction false} ScaleChannelsSamples(raw: seq<int>, first: nat, source: Option<AudioSource>, volume: real)
    ensures var out := ScaleChannels(raw, first, source, volume);
            forall j :: 0 <= j < |raw| ==> out[j] == ScaleSample(raw[j], first + j, source, volume)
    decreases |raw|
  {
    if |raw| > 0 {
      ScaleChannelsSamples(raw[1..], first + 1, source, volume);
    }
  }

  /** Removing one whole frame keeps the channel index of a sample. */
  lemma ModStep(i: int, n: int)
    requires n > 0 && i >= n
    ensures (i - n) % n == i % n
  {
    var q, r := i / n, i % n;
    assert i - n == (q - 1) * n + r;
    ModUnique(i - n, n, q - 1, r);
  }

  /** Euclidean remainders are unique. */
  lemma ModUnique(a: int, n: int, q: int, r: int)
    requires n > 0 && 0 <= r < n && a == q * n + r
    ensures a % n == r
  {
    var q2, r2 := a / n, a % n;
    assert (q - q2) * n == r2 - r;
    if q - q2 > 0 { MulMono(1, q - q2, n); }
    if q - q2 < 0 { MulMono(1, q2 - q, n); }
  }

  /** The inner loop of the source counts channels in a `uint8_t`:
      `for (uint8_t c = 0; c < channels; c++)`. Starting from counter value
      `c`, this is the number of iterations before the loop exits, or None
      if it is still running after `fuel` iterations. */
  function ChannelLoopAsWritten(c: Byte, channels: int, fuel: nat): (r: Option<nat>)
    decreases fuel
  {
    if c >= channels then Some(0)
    else if fuel == 0 then None
    else match ChannelLoopAsWritten((c + 1) % 256, channels, fuel - 1)
      case None => None
      case Some(k) => Some(k + 1)
  }

  /** With 256 or more channels the 8-bit counter wraps to 0 before reaching
      the channel count, so the loop never exits: no amount of iterations
      suffices. */
  lemma {:induction false} ChannelLoopNeverExits(c: Byte, channels: int, fuel: nat)
    requires channels >= 256
    ensures ChannelLoopAsWritten(c, channels, fuel) == None
    decreases fuel
  {
    if fuel > 0 {
      ChannelLoopNeverExits((c + 1) % 256, channels, fuel - 1);
    }
  }

  /** With at most 255 channels the loop runs once per remaining channel. */
  lemma {:induction false} ChannelLoopExitsBelow256(c: Byte, channels: int, fuel: nat)
    requires channels <= 255 && c <= channels && fuel >= channels - c
    ensures ChannelLoopAsWritten(c, channels, fuel) == Some(channels - c)
    decreases channels - c
  {
    if c < channels {
      ChannelLoopExitsBelow256(c + 1, channels, fuel - 1);
    }
  }

  /** The outer loop over the frames read, one frame at a time (a trailing
      partial frame, which a whole-frame read never leaves, is scaled like a
      frame). */
  function ScaleFrames(raw: seq<int>, channels: nat, source: Option<AudioSource>, volume: real): (out: seq<real>)
    requires channels > 0
    ensures |out| == |raw|
    decreases |raw|
  {
    if |raw| <= channels then
      ScaleChannels(raw, 0, source, volume)
    else
      ScaleChannels(raw[..channels], 0, source, volume) + ScaleFrames(raw[channels..], channels, source, volume)
  }

  /** What the two loops write: sample `i` of the interleaved buffer is the
      raw sample scaled by the gain of channel `i % channels`. */
  lemma {:induction false} ScaleFramesSamples(raw: seq<int>, channels: nat, source: Option<AudioSource>, volume: real)
    requires channels > 0
    ensures var out := ScaleFrames(raw, channels, source, volume);
            forall i :: 0 <= i < |raw| ==> out[i] == ScaleSample(raw[i], i % channels, source, volume)
    decreases |raw|
  {
    var out := ScaleFrames(raw, channels, source, volume);
    if |raw| <= channels {
      ScaleChannelsSamples(raw, 0, source, volume);
      forall i | 0 <= i < |raw| ensures out[i] == ScaleSample(raw[i], i % channels, source, volume) {
        ModUnique(i, channels, 0, i);
      }
    } else {
      var tail := raw[channels..];
      ScaleChannelsSamples(raw[..channels], 0, source, volume);
      ScaleFramesSamples(tail, channels, source, volume);
      forall i | 0 <= i < |raw| ensures out[i] == ScaleSample(raw[i], i % channels, source, volume) {
        if i < channels {
          ModUnique(i, channels, 0, i);
        } else {
          ModStep(i, channels);
          assert raw[i] == tail[i - channels];
        }
      }
    }
  }

  /** Splitting off the first frame of at least one whole frame. */
  lemma ScaleFramesFirstFrame(raw: seq<int>, channels: nat, source: Option<AudioSource>, volume: real)
    requires channels > 0 && |raw| >= channels
    ensures ScaleFrames(raw, channels, source, volume)
         == ScaleChannels(raw[..channels], 0, source, volume) + ScaleFrames(raw[channels..], channels, source, volume)
  {
    if |raw| == channels {
      assert raw[..channels] == raw;
      assert ScaleFrames(raw[channels..], channels, source, volume) == [];
    }
  }

  /** Scaling whole frames distributes over concatenation. */
  lemma {:induction false} ScaleFramesAppend(a: seq<int>, b: seq<int>, channels: nat, frames: nat,
                                             source: Option<AudioSource>, volume: real)
    requires channels > 0 && |a| == frames * channels
    ensures ScaleFrames(a + b, channels, source, volume)
         == ScaleFrames(a, channels, source, volume) + ScaleFrames(b, channels, source, volume)
    decreases frames
  {
    if frames == 0 {
      assert a == [] && a + b == b;
      assert ScaleFrames(a, channels, source, volume) == [];
    } else {
      assert |a| == (frames - 1) * channels + channels;
      var rest := a[channels..];
      assert (a + b)[..channels] == a[..channels];
      assert (a + b)[channels..] == rest + b;
      ScaleFramesFirstFrame(a + b, channels, source, volume);
      ScaleFramesFirstFrame(a, channels, source, volume);
      ScaleFramesAppend(rest, b, channels, frames - 1, source, volume);
    }
  }

  datatype CallbackResult = CallbackResult(output: seq<real>, stream: AudioStream, code: CallbackCode)

  /** One invocation of `audioCallback` for a stream bound to an open file.
      - Paused: writes nothing, stores the file cursor (truncated to an
        `unsigned int`) as the stream position and completes the stream.
      - Otherwise: reads up to `framesPerBuffer` frames, writes
        `readFrames * channels` scaled samples; a full read continues and
        keeps the status, a short read (also an empty one) sets status
        CallbackStop and completes. The looping flag is not consulted and
        the stored stream position is not touched. */
  function AudioCallback(s: AudioStream, framesPerBuffer: nat): (r: CallbackResult)
    requires s.Valid() && s.soundFile.Some?
    ensures r.stream.Valid() && r.stream.soundFile.Some?
    ensures s.audioStatus == Pause ==>
      && r.output == []
      && r.code == Complete
      && r.stream == s.(streamPosFrame := s.soundFile.value.cursor % UINT_RANGE)
    ensures s.audioStatus != Pause ==>
      var f := s.soundFile.value;
      var f' := r.stream.soundFile.value;
      && f.cursor <= f'.cursor
      && f' == f.(cursor := f'.cursor)
      && f'.cursor - f.cursor <= framesPerBuffer
      && |r.output| == (f'.cursor - f.cursor) * f.channels
      && (r.code == Continue <==> f'.cursor - f.cursor == framesPerBuffer)
      && (r.code == Continue <==> f.frames - f.cursor >= framesPerBuffer)
      && (f'.cursor - f.cursor == framesPerBuffer || f'.cursor == f.frames)
      && r.stream.audioStatus == (if r.code == Continue then s.audioStatus else CallbackStop)
      && r.stream == s.(soundFile := Some(f'), audioStatus := r.stream.audioStatus)
  {
    var f := s.soundFile.value;
    if s.audioStatus == Pause then
      CallbackResult([], s.(streamPosFrame := f.cursor % UINT_RANGE), Complete)
    else
      var read := ReadFrames(f, framesPerBuffer);
      var output := ScaleFrames(read.data, f.channels, s.audioSource, s.volume);
      if read.readFrames == framesPerBuffer then
        CallbackResult(output, s.(soundFile := Some(read.file)), Continue)
      else
        CallbackResult(output, s.(soundFile := Some(read.file), audioStatus := CallbackStop), Complete)
  }

  /** The samples a playing callback writes: sample `i` of the buffer is the
      file's sample at the cursor offset plus `i`, times the gain of channel
      `i % channels`. */
  lemma CallbackSamples(s: AudioStream, framesPerBuffer: nat)
    requires s.Valid() && s.soundFile.Some? && s.audioStatus != Pause
    ensures var f := s.soundFile.value;
            var out := AudioCallback(s, framesPerBuffer).output;
            f.cursor * f.channels + |out| <= |f.samples|
            && forall i :: 0 <= i < |out| ==>
                 out[i] == ScaleSample(f.samples[f.cursor * f.channels + i], i % f.channels,
                                       s.audioSource, s.volume)
  {
    var f := s.soundFile.value;
    var read := ReadFrames(f, framesPerBuffer);
    var out := AudioCallback(s, framesPerBuffer).output;
    assert out == ScaleFrames(read.data, f.channels, s.audioSource, s.volume);
    ScaleFramesSamples(read.data, f.channels, s.audioSource, s.volume);
  }

  /** The two pan multipliers split the signal between the stereo channels:
      they sum to 1 and each lies in [0, 1]; a hard-right source silences
      the left channel, a centred one halves both, a hard-left one silences
      the right. */
  lemma PanLaw(pan: real)
    requires -1.0 <= pan <= 1.0
    ensures PanMultiplier(0, pan) + PanMultiplier(1, pan) == 1.0
    ensures 0.0 <= PanMultiplier(0, pan) <= 1.0 && 0.0 <= PanMultiplier(1, pan) <= 1.0
    ensures pan == 1.0 ==> PanMultiplier(0, pan) == 0.0 && PanMultiplier(1, pan) == 1.0
    ensures pan == 0.0 ==> PanMultiplier(0, pan) == 0.5 && PanMultiplier(1, pan) == 0.5
    ensures pan == -1.0 ==> PanMultiplier(0, pan) == 1.0 && PanMultiplier(1, pan) == 0.0
    ensures forall c: nat :: c >= 2 ==> PanMultiplier(c, pan) == 1.0
  {
  }

  /** The pan multiplier moves signal from left to right as the pan grows. */
  lemma PanMonotone(p: real, q: real)
    requires -1.0 <= p <= q <= 1.0
    ensures PanMultiplier(0, q) <= PanMultiplier(0, p)
    ensures PanMultiplier(1, p) <= PanMultiplier(1, q)
  {
  }

  /** Without a positional source every channel is scaled by the volume
      alone; with one, channels from index 2 on are scaled by the volume
      alone and the stereo pair splits the volume between its two channels. */
  lemma GainByChannel(channel: nat, source: Option<AudioSource>, volume: real)
    ensures source.None? ==> SampleGain(channel, source, volume) == volume
    ensures source.Some? && channel >= 2 ==> SampleGain(channel, source, volume) == volume
    ensures source.Some? ==> SampleGain(0, source, volume) + SampleGain(1, source, volume) == volume
  {
  }

  /** The looping flag is never read by the callback: whatever it is set to,
      the same samples are written, the same code is returned and the same
      status results. */
  lemma LoopingIgnored(s: AudioStream, looping: bool, framesPerBuffer: nat)
    requires s.Valid() && s.soundFile.Some?
    ensures var r := AudioCallback(s, framesPerBuffer);
            var r' := AudioCallback(s.(looping := looping), framesPerBuffer);
            r'.output == r.output && r'.code == r.code && r'.stream == r.stream.(looping := looping)
  {
  }

  /** Playback driven by the backend: the callback is invoked again and again
      until it reports completion, and the buffers written are concatenated.
      File streams are opened with `paFramesPerBufferUnspecified`, so the
      backend may ask for a different number of frames on every invocation:
      `sizes` lists the requests in order. Should the list run out first,
      playback is still going (`Continue`) with what was written so far.
      A list of positive requests longer than the frames left always
      suffices: every invocation but the last reads at least one frame. */
  function PlayUntilComplete(s: AudioStream, sizes: seq<nat>): (r: CallbackResult)
    requires s.Valid() && s.soundFile.Some? && s.audioStatus != Pause
    requires forall i :: 0 <= i < |sizes| ==> sizes[i] > 0
    ensures r.stream.Valid() && r.stream.soundFile.Some?
    ensures |sizes| > s.soundFile.value.frames - s.soundFile.value.cursor ==> r.code == Complete
    decreases |sizes|
  {
    if |sizes| == 0 then CallbackResult([], s, Continue)
    else
      var step := AudioCallback(s, sizes[0]);
      if step.code == Complete then step
      else
        var rest := PlayUntilComplete(step.stream, sizes[1..]);
        CallbackResult(step.output + rest.output, rest.stream, rest.code)
  }

  /** Playing a file to its end writes exactly the scaled remainder of the
      file from the cursor on, leaves the cursor at the end of the file
      (one past the last frame) and the status at CallbackStop; the stored
      stream position is untouched. This holds however the remainder
      divides into buffers of whatever sizes, including a final empty read
      when a buffer ends exactly at the end of the file. */
  lemma PlayUntilCompletePlaysRemainder(s: AudioStream, sizes: seq<nat>)
    requires s.Valid() && s.soundFile.Some? && s.audioStatus != Pause
    requires forall i :: 0 <= i < |sizes| ==> sizes[i] > 0
    requires |sizes| > s.soundFile.value.frames - s.soundFile.value.cursor
    ensures var f := s.soundFile.value;
            var r := PlayUntilComplete(s, sizes);
            f.cursor * f.channels <= |f.samples|
            && r.output == ScaleFrames(f.samples[f.cursor * f.channels ..], f.channels, s.audioSource, s.volume)
            && r.stream == s.(soundFile := Some(f.(cursor := f.frames)), audioStatus := CallbackStop)
  {
    PlaybackOutput(s, sizes);
    PlaybackEndState(s, sizes);
  }

  /** The output half of `PlayUntilCompletePlaysRemainder`, by induction on
      the requests. */
  lemma {:induction false} PlaybackOutput(s: AudioStream, sizes: seq<nat>)
    requires s.Valid() && s.soundFile.Some? && s.audioStatus != Pause
    requires forall i :: 0 <= i < |sizes| ==> sizes[i] > 0
    requires |sizes| > s.soundFile.value.frames - s.soundFile.value.cursor
    ensures var f := s.soundFile.value;
            f.cursor * f.channels <= |f.samples|
            && PlayUntilComplete(s, sizes).output
               == ScaleFrames(f.samples[f.cursor * f.channels ..], f.channels, s.audioSource, s.volume)
    decreases |sizes|
  {
    var f := s.soundFile.value;
    var step := AudioCallback(s, sizes[0]);
    var k, lo, hi := CallbackReadsSlice(s, sizes[0]);
    var rest := if step.code == Continue then PlayUntilComplete(step.stream, sizes[1..]).output else [];
    if step.code == Continue {
      PlaybackOutput(step.stream, sizes[1..]);
    }
    JoinOrFinish(f.samples, lo, hi, f.channels, k,
                 s.audioSource, s.volume, step.output, rest, step.code == Complete);
  }

  /** The state half of `PlayUntilCompletePlaysRemainder`, by induction on
      the requests. */
  lemma {:induction false} PlaybackEndState(s: AudioStream, sizes: seq<nat>)
    requires s.Valid() && s.soundFile.Some? && s.audioStatus != Pause
    requires forall i :: 0 <= i < |sizes| ==> sizes[i] > 0
    requires |sizes| > s.soundFile.value.frames - s.soundFile.value.cursor
    ensures var f := s.soundFile.value;
            PlayUntilComplete(s, sizes).stream
            == s.(soundFile := Some(f.(cursor := f.frames)), audioStatus := CallbackStop)
    decreases |sizes|
  {
    var step := AudioCallback(s, sizes[0]);
    var _, _, _ := CallbackReadsSlice(s, sizes[0]);
    if step.code == Continue {
      PlaybackEndState(step.stream, sizes[1..]);
    }
  }

  /** The scaled samples of two adjacent stretches, the first of whole
      frames, join up to the scaled samples of both; when the first runs to
      the end it is all there is. */
  lemma JoinOrFinish(samples: seq<int>, lo: nat, mid: nat, channels: nat, frames: nat,
                     source: Option<AudioSource>, volume: real, a: seq<real>, b: seq<real>, last: bool)
    requires channels > 0 && lo <= mid <= |samples| && mid - lo == frames * channels
    requires a == ScaleFrames(samples[lo .. mid], channels, source, volume)
    requires last ==> mid == |samples|
    requires !last ==> b == ScaleFrames(samples[mid ..], channels, source, volume)
    ensures (if last then a else a + b) == ScaleFrames(samples[lo ..], channels, source, volume)
  {
    if last {
      assert samples[lo .. mid] == samples[lo ..];
    } else {
      assert samples[lo ..] == samples[lo .. mid] + samples[mid ..];
      ScaleFramesAppend(samples[lo .. mid], samples[mid ..], channels, frames, source, volume);
    }
  }

  /** One playing callback, stated as a slice of the file: it scales the
      samples between the old and the new cursor; it completes exactly at the
      end of the file (with status CallbackStop) and otherwise only moves the
      cursor. */
  lemma CallbackReadsSlice(s: AudioStream, n: nat) returns (k: nat, lo: nat, hi: nat)
    requires s.Valid() && s.soundFile.Some? && s.audioStatus != Pause
    ensures var f := s.soundFile.value;
            var r := AudioCallback(s, n);
            var c := r.stream.soundFile.value.cursor;
            && c == f.cursor + k && lo == f.cursor * f.channels && hi == c * f.channels
            && lo <= hi <= |f.samples| && hi - lo == k * f.channels
            && r.output == ScaleFrames(f.samples[lo .. hi], f.channels, s.audioSource, s.volume)
            && (r.code == Complete ==> c == f.frames && hi == |f.samples|)
            && (r.code == Complete ==> r.stream == s.(soundFile := Some(f.(cursor := c)), audioStatus := CallbackStop))
            && (r.code == Continue ==> r.stream == s.(soundFile := Some(f.(cursor := c))))
  {
    var f := s.soundFile.value;
    var read := ReadFrames(f, n);
    assert read.file.cursor * f.channels - f.cursor * f.channels == |read.data|;
    k, lo, hi := read.file.cursor - f.cursor, f.cursor * f.channels, read.file.cursor * f.channels;
  }
}
