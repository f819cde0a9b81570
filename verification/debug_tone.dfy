/** `debugCallback` of Audio.cpp: the test-tone generator bound to debug-mode
    streams. It writes two unsigned 8-bit channels per frame from two local
    counters that start at 0 on every call; the left one steps by 1 and the
    right one by 3, with C's 8-bit wrap-around, and a counter that reaches
    255 is "corrected" by `-= -255`. */
module DebugTone {
  import opened AudioTypes

  /** `x += k` on a `uint8_t`: the sum is truncated to 8 bits. */
  function Add8(x: Byte, k: int): Byte {
    (x + k) % 256
  }

  /** The correction as written: `if (x >= 255) x -= -255;`. Subtracting
      -255 adds 255, which truncated to 8 bits takes one step back. */
  function CorrectAsWritten(x: Byte): Byte {
    if x >= 255 then (x - (-255)) % 256 else x
  }

  /** The left counter at frame `i`: it counts up to 254 and stays there,
      because 254 + 1 = 255 is corrected back to 254. */
  function LeftEar(i: nat): Byte {
    if i < 254 then i else 254
  }

  /** The right counter at frame `i`: multiples of 3 up to 252, then 254
      (255 corrected), then 1, 4, ..., 253 after the 8-bit wrap, then 0
      again; a cycle of 171 frames. */
  function RightEar(i: nat): Byte {
    var m := i % 171;
    if m < 85 then 3 * m else if m == 85 then 254 else 3 * (m - 86) + 1
  }

  lemma LeftEarStep(i: nat)
    ensures CorrectAsWritten(Add8(LeftEar(i), 1)) == LeftEar(i + 1)
  {
  }

  lemma RightEarStep(i: nat)
    ensures CorrectAsWritten(Add8(RightEar(i), 3)) == RightEar(i + 1)
  {
    var m := i % 171;
    if m < 170 {
      assert (i + 1) % 171 == m + 1;
    } else {
      assert (i + 1) % 171 == 0;
    }
  }

  /** The debug callback: writes `2 * framesPerBuffer` bytes, left then right
      for each frame, following the two counters, never writes 255 and
      returns 0 (`paContinue`), so the tone never ends on its own. */
  method DebugCallback(framesPerBuffer: nat) returns (output: seq<Byte>, result: int)
    ensures |output| == 2 * framesPerBuffer
    ensures forall i :: 0 <= i < framesPerBuffer ==> output[2 * i] == LeftEar(i) && output[2 * i + 1] == RightEar(i)
    ensures forall j :: 0 <= j < |output| ==> output[j] != 255
    ensures result == 0
  {
    var leftEar: Byte := 0;
    var rightEar: Byte := 0;
    output := [];
    var i := 0;
    while i < framesPerBuffer
      invariant 0 <= i <= framesPerBuffer
      invariant |output| == 2 * i
      invariant leftEar == LeftEar(i) && rightEar == RightEar(i)
      invariant forall k :: 0 <= k < i ==> output[2 * k] == LeftEar(k) && output[2 * k + 1] == RightEar(k)
      invariant forall j :: 0 <= j < |output| ==> output[j] != 255
    {
      output := output + [leftEar, rightEar];
      LeftEarStep(i);
      RightEarStep(i);
      leftEar := CorrectAsWritten(Add8(leftEar, 1));
      rightEar := CorrectAsWritten(Add8(rightEar, 3));
      i := i + 1;
    }
    result := 0;
  }

  /** The evidently intended correction, `x -= 255`, which wraps 255 to 0 the
      way the float generator of AudioBackend.cpp wraps 1.0 back to -1.0. */
  function CorrectWrapped(x: Byte): Byte {
    if x >= 255 then x - 255 else x
  }

  lemma WrappedLeftStep(i: nat)
    ensures CorrectWrapped(Add8(i % 255, 1)) == (i + 1) % 255
  {
  }

  lemma WrappedRightStep(i: nat)
    ensures CorrectWrapped(Add8((3 * i) % 255, 3)) == (3 * (i + 1)) % 255
  {
    var q, r := i / 85, i % 85;
    assert 3 * i == 255 * q + 3 * r;
    assert (3 * i) % 255 == 3 * r;
    if r < 84 {
      assert i + 1 == 85 * q + (r + 1);
      assert 3 * (i + 1) == 255 * q + 3 * (r + 1);
      assert (3 * (i + 1)) % 255 == 3 * (r + 1);
    } else {
      assert 3 * (i + 1) == 255 * (q + 1);
      assert (3 * (i + 1)) % 255 == 0;
    }
  }

  /** With the intended correction both channels are sawtooth ramps over
      0..254: the left one steps by 1 (period 255), the right one by 3
      (period 85). */
  method DebugCallbackWrapped(framesPerBuffer: nat) returns (output: seq<Byte>, result: int)
    ensures |output| == 2 * framesPerBuffer
    ensures forall i :: 0 <= i < framesPerBuffer ==> output[2 * i] == i % 255 && output[2 * i + 1] == (3 * i) % 255
    ensures forall j :: 0 <= j < |output| ==> output[j] != 255
    ensures result == 0
  {
    var leftEar: Byte := 0;
    var rightEar: Byte := 0;
    output := [];
    var i := 0;
    while i < framesPerBuffer
      invariant 0 <= i <= framesPerBuffer
      invariant |output| == 2 * i
      invariant leftEar == i % 255 && rightEar == (3 * i) % 255
      invariant forall k :: 0 <= k < i ==> output[2 * k] == k % 255 && output[2 * k + 1] == (3 * k) % 255
      invariant forall j :: 0 <= j < |output| ==> output[j] != 255
    {
      output := output + [leftEar, rightEar];
      WrappedLeftStep(i);
      WrappedRightStep(i);
      leftEar := CorrectWrapped(Add8(leftEar, 1));
      rightEar := CorrectWrapped(Add8(rightEar, 3));
      i := i + 1;
    }
    result := 0;
  }

  /** The discrepancy: from frame 254 on, the as-written left channel is
      stuck at 254, so the 256-frame buffers of a debug stream end with a
      repeated 254 where the ramp should have wrapped to 0. */
  lemma LeftEarSticksAt254(i: nat)
    requires i >= 254
    ensures LeftEar(i) == 254 && LeftEar(i + 1) == LeftEar(i)
    ensures LeftEar(255) == 254 && LeftEar(255) != 255 % 255
    ensures CorrectAsWritten(Add8(254, 1)) == 254 && CorrectWrapped(Add8(254, 1)) == 0
  {
  }
}
