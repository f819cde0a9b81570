/** The two libsndfile primitives the stream uses, stated as assumptions
    about the library rather than modelled from its source:
    - `sf_readf_int(h, buf, n)` copies min(n, frames - cursor) whole frames
      starting at the cursor and advances the cursor by that many frames;
    - `sf_seek(h, pos, SF_SEEK_SET)` moves the cursor to `pos` when
      0 <= pos <= frames and otherwise fails and leaves it where it was;
    - `sf_seek(h, 0, SF_SEEK_CUR)` returns the cursor;
    - every call on a null handle fails and changes nothing. */
module SndFile {
  import opened Wrappers
  import opened AudioTypes

  function Min(a: nat, b: nat): nat {
    if a <= b then a else b
  }

  /** a <= b scales to a * c <= b * c for a non-negative c. */
  lemma MulMono(a: nat, b: nat, c: nat)
    requires a <= b
    ensures a * c <= b * c
  {
    assert b * c == a * c + (b - a) * c;
  }

  /** The sample offset of a frame boundary lies inside the file. */
  lemma FrameOffsetInBounds(f: SoundFile, frame: nat)
    requires f.Valid() && frame <= f.frames
    ensures frame * f.channels <= |f.samples|
  {
    MulMono(frame, f.frames, f.channels);
  }

  /** What one `sf_readf_int` call returns and leaves behind. */
  datatype ReadResult = ReadResult(file: SoundFile, data: seq<int>, readFrames: nat)

  /** The number of frames `sf_readf_int` returns for a request of `n`. */
  function ReadCount(f: SoundFile, n: nat): nat
    requires f.Valid()
  {
    Min(n, f.frames - f.cursor)
  }

  /** `sf_readf_int`: returns the next min(n, frames - cursor) frames and
      advances the cursor past them; nothing else about the file changes. */
  function ReadFrames(f: SoundFile, n: nat): (r: ReadResult)
    requires f.Valid()
    ensures r.file.Valid()
    ensures r.readFrames <= n && r.readFrames <= f.frames - f.cursor
    ensures r.readFrames < n <==> f.frames - f.cursor < n
    ensures r.readFrames == n || r.file.cursor == f.frames
    ensures r.readFrames == Min(n, f.frames - f.cursor)
    ensures r.file == f.(cursor := f.cursor + r.readFrames)
    ensures |r.data| == r.readFrames * f.channels
    ensures f.cursor * f.channels + |r.data| == r.file.cursor * f.channels <= |f.samples|
    ensures r.data == f.samples[f.cursor * f.channels .. r.file.cursor * f.channels]
  {
    var k := ReadCount(f, n);
    var lo := f.cursor * f.channels;
    var hi := (f.cursor + k) * f.channels;
    assert hi == lo + k * f.channels;
    FrameOffsetInBounds(f, f.cursor + k);
    ReadResult(f.(cursor := f.cursor + k), f.samples[lo .. hi], k)
  }

  /** `sf_seek(h, pos, SF_SEEK_SET)` on a possibly null handle. */
  function SeekSet(h: Option<SoundFile>, pos: nat): (r: Option<SoundFile>)
    requires h.Some? ==> h.value.Valid()
    ensures r.Some? <==> h.Some?
    ensures r.Some? ==> r.value.Valid()
    ensures r.Some? && pos <= h.value.frames ==> r.value == h.value.(cursor := pos)
    ensures r.Some? && pos > h.value.frames ==> r.value == h.value
  {
    match h
    case None => None
    case Some(f) => if pos <= f.frames then Some(f.(cursor := pos)) else h
  }
}
