/** The audio buffer edits of src/utils/audioUtils.js: replacing a selection
    with the clipboard and inserting the clipboard at a position. Each builds a
    freshly allocated buffer whose every channel is filled by three index
    loops: the prefix of the source, the whole clipboard channel, the suffix
    of the source. Samples are values of an arbitrary type T: the edits only
    move them. */
module AudioUtils {
  import opened Common

  /** An AudioBuffer: a list of channels, its length in samples and its
      sample rate. A well-formed buffer has every channel of that length. */
  datatype Buffer<T> = Buffer(channels: seq<seq<T>>, length: nat, sampleRate: int)
  {
    predicate Valid() {
      forall c | 0 <= c < |channels| :: |channels[c]| == length
    }

    function NumberOfChannels(): nat {
      |channels|
    }
  }

  /** The errors the two edits throw. */
  datatype EditError = InvalidClipboard | InvalidSelectionRange | InvalidInsertPosition

  /** audioContext.createBuffer in the test environment: the requested
      channel count, length and rate, every sample zero. */
  function CreateBuffer<T>(numberOfChannels: nat, length: nat, sampleRate: int, zero: T): (b: Buffer<T>)
    ensures b.Valid()
    ensures b.NumberOfChannels() == numberOfChannels && b.length == length && b.sampleRate == sampleRate
    ensures forall c, i | 0 <= c < numberOfChannels && 0 <= i < length :: b.channels[c][i] == zero
  {
    Buffer(seq(numberOfChannels, _ => seq(length, _ => zero)), length, sampleRate)
  }

  /** The buffer a splice produces: channel c of the source with samples
      [start, end) replaced by clipboard channel c mod the clipboard's channel
      count; the source's channel count and rate. */
  function Spliced<T>(source: Buffer<T>, clip: Buffer<T>, start: nat, end: nat): (b: Buffer<T>)
    requires source.Valid() && clip.Valid() && clip.NumberOfChannels() > 0
    requires start <= end <= source.length
    ensures b.Valid()
    ensures b.NumberOfChannels() == source.NumberOfChannels() && b.sampleRate == source.sampleRate
    ensures b.length == source.length - (end - start) + clip.length
  {
    var k := clip.NumberOfChannels();
    Buffer(seq(source.NumberOfChannels(), c requires 0 <= c < source.NumberOfChannels() =>
             source.channels[c][..start] + clip.channels[c % k] + source.channels[c][end..]),
           source.length - (end - start) + clip.length, source.sampleRate)
  }

  /** One channel of a splice, written into a fresh sample array by the three
      loops of the source: prefix, clipboard, suffix. */
  method SpliceChannel<T(0)>(src: seq<T>, clip: seq<T>, start: nat, end: nat) returns (out: seq<T>)
    requires start <= end <= |src|
    ensures out == src[..start] + clip + src[end..]
  {
    var cut := end - start;
    var data := new T[|src| - cut + |clip|];
    var i := 0;
    while i < start
      invariant 0 <= i <= start
      invariant forall j | 0 <= j < i :: data[j] == src[j]
    {
      data[i] := src[i];
      i := i + 1;
    }
    i := 0;
    while i < |clip|
      invariant 0 <= i <= |clip|
      invariant forall j | 0 <= j < start :: data[j] == src[j]
      invariant forall j | 0 <= j < i :: data[start + j] == clip[j]
    {
      data[start + i] := clip[i];
      i := i + 1;
    }
    i := end;
    while i < |src|
      invariant end <= i <= |src|
      invariant forall j | 0 <= j < start :: data[j] == src[j]
      invariant forall j | 0 <= j < |clip| :: data[start + j] == clip[j]
      invariant forall j | end <= j < i :: data[j - cut + |clip|] == src[j]
    {
      data[i - cut + |clip|] := src[i];
      i := i + 1;
    }
    out := data[..];
    var want := src[..start] + clip + src[end..];
    forall j | 0 <= j < |out| ensures out[j] == want[j] {
      if j < start {
      } else if j < start + |clip| {
        assert data[start + (j - start)] == clip[j - start];
      } else {
        assert data[(j + cut - |clip|) - cut + |clip|] == src[j + cut - |clip|];
      }
    }
  }

  /** Every channel of the source spliced in turn, the outer loop of both edits. */
  method SpliceChannels<T(0)>(source: Buffer<T>, clip: Buffer<T>, start: nat, end: nat) returns (b: Buffer<T>)
    requires source.Valid() && clip.Valid() && clip.NumberOfChannels() > 0
    requires start <= end <= source.length
    ensures b == Spliced(source, clip, start, end)
  {
    var k := clip.NumberOfChannels();
    var channels: seq<seq<T>> := [];
    var c := 0;
    while c < source.NumberOfChannels()
      invariant 0 <= c <= source.NumberOfChannels() && |channels| == c
      invariant forall d | 0 <= d < c ::
        channels[d] == source.channels[d][..start] + clip.channels[d % k] + source.channels[d][end..]
    {
      var data := SpliceChannel(source.channels[c], clip.channels[c % k], start, end);
      channels := channels + [data];
      c := c + 1;
    }
    b := Buffer(channels, source.length - (end - start) + clip.length, source.sampleRate);
  }

  /** replaceSelection: samples [start, end) of every channel replaced by the
      clipboard; a missing or channel-less clipboard and a selection outside
      the buffer or empty are rejected, in that order. */
  method ReplaceSelection<T(0)>(source: Buffer<T>, clipboard: Option<Buffer<T>>, start: int, end: int)
    returns (r: Result<Buffer<T>, EditError>)
    requires source.Valid()
    requires clipboard.Some? ==> clipboard.value.Valid()
    ensures r == Err(InvalidClipboard) <==> clipboard.None? || clipboard.value.NumberOfChannels() == 0
    ensures r == Err(InvalidSelectionRange) <==>
      clipboard.Some? && clipboard.value.NumberOfChannels() > 0 && (start < 0 || end > source.length || start >= end)
    ensures r.Err? ==> r.error != InvalidInsertPosition
    ensures r.Ok? ==> 0 <= start < end <= source.length && clipboard.Some? && clipboard.value.NumberOfChannels() > 0
    ensures r.Ok? ==> r.value == Spliced(source, clipboard.value, start, end)
    ensures r.Ok? ==> r.value.Valid() && r.value.NumberOfChannels() == source.NumberOfChannels()
    ensures r.Ok? ==> r.value.sampleRate == source.sampleRate
    ensures r.Ok? ==> r.value.length == source.length - (end - start) + clipboard.value.length
    ensures r.Ok? ==> forall c | 0 <= c < source.NumberOfChannels() ::
      r.value.channels[c] == source.channels[c][..start]
                             + clipboard.value.channels[c % clipboard.value.NumberOfChannels()]
                             + source.channels[c][end..]
  {
    if clipboard.None? || clipboard.value.NumberOfChannels() <= 0 {
      return Err(InvalidClipboard);
    }
    if start < 0 || end > source.length || start >= end {
      return Err(InvalidSelectionRange);
    }
    var b := SpliceChannels(source, clipboard.value, start, end);
    r := Ok(b);
  }

  /** insertAtPosition: the clipboard inserted before sample `position` of
      every channel; positions 0 to the length, both ends included, are
      accepted. */
  method InsertAtPosition<T(0)>(source: Buffer<T>, clipboard: Option<Buffer<T>>, position: int)
    returns (r: Result<Buffer<T>, EditError>)
    requires source.Valid()
    requires clipboard.Some? ==> clipboard.value.Valid()
    ensures r == Err(InvalidClipboard) <==> clipboard.None? || clipboard.value.NumberOfChannels() == 0
    ensures r == Err(InvalidInsertPosition) <==>
      clipboard.Some? && clipboard.value.NumberOfChannels() > 0 && (position < 0 || position > source.length)
    ensures r.Err? ==> r.error != InvalidSelectionRange
    ensures r.Ok? ==> 0 <= position <= source.length && clipboard.Some? && clipboard.value.NumberOfChannels() > 0
    ensures r.Ok? ==> r.value == Spliced(source, clipboard.value, position, position)
    ensures r.Ok? ==> r.value.Valid() && r.value.NumberOfChannels() == source.NumberOfChannels()
    ensures r.Ok? ==> r.value.sampleRate == source.sampleRate
    ensures r.Ok? ==> r.value.length == source.length + clipboard.value.length
    ensures r.Ok? ==> forall c | 0 <= c < source.NumberOfChannels() ::
      r.value.channels[c] == source.channels[c][..position]
                             + clipboard.value.channels[c % clipboard.value.NumberOfChannels()]
                             + source.channels[c][position..]
  {
    if clipboard.None? || clipboard.value.NumberOfChannels() <= 0 {
      return Err(InvalidClipboard);
    }
    if position < 0 || position > source.length {
      return Err(InvalidInsertPosition);
    }
    var b := SpliceChannels(source, clipboard.value, position, position);
    r := Ok(b);
  }

  // ---------------------------------------------------------------------------
  // Properties of splicing
  // ---------------------------------------------------------------------------

  /** Samples [start, end) of every channel, as a buffer of their own (what
      the editor's copy puts on the clipboard). */
  function Slice<T>(b: Buffer<T>, start: nat, end: nat): (r: Buffer<T>)
    requires b.Valid() && start <= end <= b.length
    ensures r.Valid() && r.NumberOfChannels() == b.NumberOfChannels() && r.length == end - start
    ensures r.sampleRate == b.sampleRate
  {
    Buffer(seq(b.NumberOfChannels(), c requires 0 <= c < b.NumberOfChannels() => b.channels[c][start..end]),
           end - start, b.sampleRate)
  }

  /** Samples [start, end) of every channel taken out, the rest kept
      contiguous (what the editor's cut leaves). */
  function Removed<T>(b: Buffer<T>, start: nat, end: nat): (r: Buffer<T>)
    requires b.Valid() && start <= end <= b.length
    ensures r.Valid() && r.NumberOfChannels() == b.NumberOfChannels() && r.sampleRate == b.sampleRate
    ensures r.length == b.length - (end - start)
  {
    Buffer(seq(b.NumberOfChannels(), c requires 0 <= c < b.NumberOfChannels() =>
             b.channels[c][..start] + b.channels[c][end..]),
           b.length - (end - start), b.sampleRate)
  }

  /** Re-inserting a removed range where it was removed gives back the
      original buffer: cut followed by paste at the same place undoes the cut. */
  lemma CutThenInsertRestores<T>(b: Buffer<T>, start: nat, end: nat)
    requires b.Valid() && b.NumberOfChannels() > 0 && start <= end <= b.length
    ensures Spliced(Removed(b, start, end), Slice(b, start, end), start, start) == b
  {
    var k := b.NumberOfChannels();
    var cut := Removed(b, start, end);
    var back := Spliced(cut, Slice(b, start, end), start, start);
    forall c | 0 <= c < k ensures back.channels[c] == b.channels[c] {
      var s := b.channels[c];
      assert c % k == c;
      assert (s[..start] + s[end..])[..start] == s[..start];
      assert (s[..start] + s[end..])[start..] == s[end..];
      assert s[..start] + s[start..end] + s[end..] == s;
    }
  }

  /** Replacing a selection is removing it and inserting the clipboard at its
      start. */
  lemma ReplaceIsCutThenInsert<T>(b: Buffer<T>, clip: Buffer<T>, start: nat, end: nat)
    requires b.Valid() && clip.Valid() && clip.NumberOfChannels() > 0 && start <= end <= b.length
    ensures Spliced(b, clip, start, end) == Spliced(Removed(b, start, end), clip, start, start)
  {
    var cut := Removed(b, start, end);
    var lhs := Spliced(b, clip, start, end);
    var rhs := Spliced(cut, clip, start, start);
    forall c | 0 <= c < b.NumberOfChannels() ensures lhs.channels[c] == rhs.channels[c] {
      var s := b.channels[c];
      assert (s[..start] + s[end..])[..start] == s[..start];
      assert (s[..start] + s[end..])[start..] == s[end..];
    }
  }

  /** Replacing a selection by a copy of itself changes nothing. */
  lemma ReplaceBySelfCopy<T>(b: Buffer<T>, start: nat, end: nat)
    requires b.Valid() && b.NumberOfChannels() > 0 && start <= end <= b.length
    ensures Spliced(b, Slice(b, start, end), start, end) == b
  {
    var k := b.NumberOfChannels();
    var r := Spliced(b, Slice(b, start, end), start, end);
    forall c | 0 <= c < k ensures r.channels[c] == b.channels[c] {
      var s := b.channels[c];
      assert c % k == c;
      assert s[..start] + s[start..end] + s[end..] == s;
    }
  }
}
