/** Device counting and filtering of AudioBackend.cpp. The PortAudio device
    table (what `Pa_GetDeviceInfo(i)` returns for each index) is a sequence
    fixed between `Pa_Initialize` and `Pa_Terminate`; the backend counts its
    input and output devices once, at construction, and later copies the
    matching devices into arrays sized by those counts. */
module Backend {
  import opened Wrappers

  /** The part of a PortAudio device record the backend reads. */
  datatype DeviceInfo = DeviceInfo(maxInputChannels: int, maxOutputChannels: int)

  /** Which side of a device a count or a filter is about. */
  datatype Direction = Input | Output

  /** `isInputDevice`: the device has at least one input channel. */
  predicate IsInputDevice(d: DeviceInfo) {
    d.maxInputChannels > 0
  }

  /** `isOutputDevice`: the device has at least one output channel. */
  predicate IsOutputDevice(d: DeviceInfo) {
    d.maxOutputChannels > 0
  }

  /** The device test the counting and filtering functions apply for `dir`. */
  predicate Serves(d: DeviceInfo, dir: Direction) {
    match dir
    case Input => IsInputDevice(d)
    case Output => IsOutputDevice(d)
  }

  /** The devices serving `dir`, in index order (reference definition). */
  function Filter(devices: seq<DeviceInfo>, dir: Direction): (r: seq<DeviceInfo>)
    decreases |devices|
  {
    if |devices| == 0 then []
    else
      var last := devices[|devices| - 1];
      Filter(devices[..|devices| - 1], dir) + (if Serves(last, dir) then [last] else [])
  }

  /** The number of devices serving `dir`. */
  function Count(devices: seq<DeviceInfo>, dir: Direction): nat {
    |Filter(devices, dir)|
  }

  /** The filter keeps exactly the serving devices: everything it returns
      serves `dir`, and each serving device of the table appears in it. */
  lemma {:induction false} FilterExact(devices: seq<DeviceInfo>, dir: Direction)
    ensures forall d :: d in Filter(devices, dir) ==> Serves(d, dir) && d in devices
    ensures forall i :: 0 <= i < |devices| && Serves(devices[i], dir) ==> devices[i] in Filter(devices, dir)
    ensures Count(devices, dir) <= |devices|
    decreases |devices|
  {
    if |devices| > 0 {
      var init := devices[..|devices| - 1];
      FilterExact(init, dir);
      forall i | 0 <= i < |devices| - 1
        ensures devices[i] == init[i]
      {
      }
    }
  }

  /** Counting a longer prefix never gives fewer devices. */
  lemma {:induction false} CountPrefixMonotone(devices: seq<DeviceInfo>, i: nat, dir: Direction)
    requires i <= |devices|
    ensures Count(devices[..i], dir) <= Count(devices, dir)
    decreases |devices| - i
  {
    if i < |devices| {
      CountPrefixMonotone(devices, i + 1, dir);
      var next := devices[..i + 1];
      assert next[..|next| - 1] == devices[..i];
      assert |Filter(next, dir)| >= |Filter(devices[..i], dir)|;
    } else {
      assert devices[..i] == devices;
    }
  }

  /** `getDevices` / `getAllDevices`: one entry per device index, in order. */
  method GetDevices(table: seq<DeviceInfo>) returns (r: seq<DeviceInfo>)
    ensures |r| == |table|
    ensures forall i :: 0 <= i < |table| ==> r[i] == table[i]
  {
    var a := new DeviceInfo[|table|](_ => DeviceInfo(0, 0));
    var i := 0;
    while i < |table|
      invariant 0 <= i <= |table|
      invariant forall k :: 0 <= k < i ==> a[k] == table[k]
    {
      a[i] := table[i];
      i := i + 1;
    }
    r := a[..];
  }

  /** `calcNumOutputDevices` / `calcNumInputDevices`: start from the number
      of devices and subtract one for each device that does not serve
      `dir`; the result is the number of devices that do. */
  method CalcNumDevicesServing(table: seq<DeviceInfo>, dir: Direction) returns (n: int)
    ensures n == Count(table, dir)
    ensures 0 <= n <= |table|
  {
    n := |table|;
    var audioDevices := GetDevices(table);
    var i := 0;
    while i < |table|
      invariant 0 <= i <= |table|
      invariant n == |table| - (i - Count(table[..i], dir))
    {
      assert table[..i + 1][..i] == table[..i];
      if !Serves(audioDevices[i], dir) {
        n := n - 1;
      }
      i := i + 1;
    }
    assert table[..|table|] == table;
    FilterExact(table, dir);
  }

  /** The backend singleton: the device table and the three counts taken
      when it was constructed. */
  datatype AudioBackend = AudioBackend(table: seq<DeviceInfo>, numDevices: int,
                                       numOutputDevices: int, numInputDevices: int)
  {
    /** The counts describe the table. */
    predicate Valid() {
      && numDevices == |table|
      && numOutputDevices == Count(table, Output)
      && numInputDevices == Count(table, Input)
    }
  }

  /** The constructor (after `Pa_Initialize`): counts all, output and input
      devices. */
  method NewBackend(table: seq<DeviceInfo>) returns (b: AudioBackend)
    ensures b.Valid() && b.table == table
    ensures 0 <= b.numOutputDevices <= b.numDevices && 0 <= b.numInputDevices <= b.numDevices
  {
    var numOutputDevices := CalcNumDevicesServing(table, Output);
    var numInputDevices := CalcNumDevicesServing(table, Input);
    b := AudioBackend(table, |table|, numOutputDevices, numInputDevices);
  }

  /** `getOutputDevices` / `getInputDevices`: allocates an array of the count
      taken at construction and copies each serving device into the next
      free slot `trueIndex`. Every write is in bounds because the table is
      the one that was counted, and the array comes out exactly full. */
  method GetDevicesServing(b: AudioBackend, dir: Direction) returns (r: seq<DeviceInfo>)
    requires b.Valid()
    ensures r == Filter(b.table, dir)
    ensures |r| == (if dir == Output then b.numOutputDevices else b.numInputDevices)
  {
    var size := if dir == Output then b.numOutputDevices else b.numInputDevices;
    var audioDevices := new DeviceInfo[size](_ => DeviceInfo(0, 0));
    var trueIndex := 0;
    var i := 0;
    while i < b.numDevices
      invariant 0 <= i <= b.numDevices
      invariant trueIndex == Count(b.table[..i], dir)
      invariant trueIndex <= size
      invariant audioDevices[..trueIndex] == Filter(b.table[..i], dir)
    {
      var audioDevice := b.table[i];
      assert b.table[..i + 1][..i] == b.table[..i];
      if Serves(audioDevice, dir) {
        CountPrefixMonotone(b.table, i + 1, dir);
        audioDevices[trueIndex] := audioDevice;
        trueIndex := trueIndex + 1;
      }
      i := i + 1;
    }
    assert b.table[..b.numDevices] == b.table;
    r := audioDevices[..];
  }

  /** What `getInstance` returns and whether it had to construct. */
  datatype Instance = Instance(backend: AudioBackend, slot: Option<AudioBackend>, constructed: bool)

  /** `getInstance`: constructs the backend on the first call only (with the
      device table of that moment) and returns the stored one afterwards. */
  function GetInstance(slot: Option<AudioBackend>, table: seq<DeviceInfo>): (r: Instance)
    requires slot.Some? ==> slot.value.Valid()
    ensures r.slot == Some(r.backend) && r.backend.Valid()
    ensures r.constructed <==> slot.None?
    ensures slot.Some? ==> r.backend == slot.value
    ensures slot.None? ==> r.backend.table == table
  {
    match slot
    case Some(b) => Instance(b, slot, false)
    case None =>
      var b := AudioBackend(table, |table|, Count(table, Output), Count(table, Input));
      Instance(b, Some(b), true)
  }

  /** Calling `getInstance` again constructs nothing and returns the same
      backend, whatever the device table is by then. */
  lemma GetInstanceOnce(table: seq<DeviceInfo>, later: seq<DeviceInfo>)
    ensures var first := GetInstance(None, table);
            var second := GetInstance(first.slot, later);
            first.constructed && !second.constructed
            && second.backend == first.backend && second.slot == first.slot
  {
  }
}
