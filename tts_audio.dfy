/** The two audio helpers of src/pages/TtsEditor.jsx: bufferToWave, which
    writes the WAVE header in front of 16-bit samples, and mergeBuffers,
    which lays decoded buffers end to end in one new buffer. A slot whose
    decoding failed is None and is skipped; a merged channel a buffer does
    not have is filled from that buffer's first channel. */
module TtsAudio {
  import opened Common
  import opened AudioUtils
  import WavHeader

  /** A buffer mergeBuffers can read: well formed with at least a channel. */
  predicate Playable<T>(b: Buffer<T>) {
    b.Valid() && b.NumberOfChannels() > 0
  }

  predicate AllPlayable<T>(bs: seq<Option<Buffer<T>>>) {
    forall i | 0 <= i < |bs| :: bs[i].Some? ==> Playable(bs[i].value)
  }

  /** The samples of the buffers that are present. */
  function TotalLength<T>(bs: seq<Option<Buffer<T>>>): nat {
    if bs == [] then 0
    else
      var last := bs[|bs| - 1];
      TotalLength(bs[..|bs| - 1]) + (if last.Some? then last.value.length else 0)
  }

  /** The channel of b that merged channel c is copied from. */
  function SourceChannel<T>(b: Buffer<T>, c: int): (r: seq<T>)
    requires Playable(b)
    ensures |r| == b.length
  {
    if 0 <= c < |b.channels| then b.channels[c] else b.channels[0]
  }

  /** Merged channel c: the present buffers' source channels end to end. */
  function MergedChannel<T>(bs: seq<Option<Buffer<T>>>, c: int): (r: seq<T>)
    requires AllPlayable(bs)
    ensures |r| == TotalLength(bs)
  {
    if bs == [] then []
    else
      var last := bs[|bs| - 1];
      assert AllPlayable(bs[..|bs| - 1]);
      MergedChannel(bs[..|bs| - 1], c) + (if last.Some? then SourceChannel(last.value, c) else [])
  }

  /** The merged buffer takes the channel count and the rate of the first
      slot, or 1 channel at 44100 Hz when that slot is empty. */
  function MergedChannelCount<T>(bs: seq<Option<Buffer<T>>>): nat {
    if bs != [] && bs[0].Some? then bs[0].value.NumberOfChannels() else 1
  }

  function MergedRate<T>(bs: seq<Option<Buffer<T>>>): int {
    if bs != [] && bs[0].Some? then bs[0].value.sampleRate else 44100
  }

  function Merged<T>(bs: seq<Option<Buffer<T>>>): Buffer<T>
    requires AllPlayable(bs)
  {
    Buffer(seq(MergedChannelCount(bs), c => MergedChannel(bs, c)), TotalLength(bs), MergedRate(bs))
  }

  function Zeros<T>(n: nat, zero: T): (r: seq<T>)
    ensures |r| == n
  {
    seq(n, _ => zero)
  }

  /** TypedArray.prototype.set: src written over ch from offset on. */
  function Placed<T>(ch: seq<T>, src: seq<T>, offset: nat): (r: seq<T>)
    requires offset + |src| <= |ch|
    ensures |r| == |ch|
  {
    ch[..offset] + src + ch[offset + |src|..]
  }

  lemma PlacedOnZeros<T>(a: seq<T>, src: seq<T>, n: nat, zero: T)
    requires |src| <= n
    ensures Placed(a + Zeros(n, zero), src, |a|) == a + src + Zeros(n - |src|, zero)
  {
    var ch := a + Zeros(n, zero);
    assert ch[..|a|] == a;
    assert ch[|a| + |src|..] == Zeros(n - |src|, zero);
  }

  lemma {:induction false} TotalLengthConcat<T>(a: seq<Option<Buffer<T>>>, b: seq<Option<Buffer<T>>>)
    ensures TotalLength(a + b) == TotalLength(a) + TotalLength(b)
  {
    if b == [] {
      assert a + b == a;
    } else {
      var init := b[..|b| - 1];
      assert (a + b)[..|a + b| - 1] == a + init;
      TotalLengthConcat(a, init);
    }
  }

  lemma {:induction false} MergedChannelConcat<T>(a: seq<Option<Buffer<T>>>, b: seq<Option<Buffer<T>>>, c: int)
    requires AllPlayable(a + b)
    ensures AllPlayable(a) && AllPlayable(b)
    ensures MergedChannel(a + b, c) == MergedChannel(a, c) + MergedChannel(b, c)
  {
    assert forall i | 0 <= i < |a| :: a[i] == (a + b)[i];
    assert forall i | 0 <= i < |b| :: b[i] == (a + b)[|a| + i];
    if b == [] {
      assert a + b == a;
    } else {
      var init := b[..|b| - 1];
      assert (a + b)[..|a + b| - 1] == a + init;
      MergedChannelConcat(a, init, c);
    }
  }

  lemma MergedStep<T>(bs: seq<Option<Buffer<T>>>, i: nat, c: int)
    requires AllPlayable(bs) && i < |bs|
    ensures AllPlayable(bs[..i]) && AllPlayable(bs[..i + 1])
    ensures TotalLength(bs[..i + 1]) == TotalLength(bs[..i]) + (if bs[i].Some? then bs[i].value.length else 0)
    ensures MergedChannel(bs[..i + 1], c)
      == MergedChannel(bs[..i], c) + (if bs[i].Some? then SourceChannel(bs[i].value, c) else [])
  {
    assert bs[..i + 1][..i] == bs[..i];
  }

  lemma SkipSlot<T>(channels: seq<seq<T>>, bs: seq<Option<Buffer<T>>>, i: nat, n: nat, zero: T)
    requires AllPlayable(bs) && i < |bs| && bs[i].None?
    requires forall c | 0 <= c < |channels| :: channels[c] == MergedChannel(bs[..i], c) + Zeros(n, zero)
    ensures forall c | 0 <= c < |channels| :: channels[c] == MergedChannel(bs[..i + 1], c) + Zeros(n, zero)
  {
    forall c | 0 <= c < |channels| ensures channels[c] == MergedChannel(bs[..i + 1], c) + Zeros(n, zero) {
      MergedStep(bs, i, c);
      assert MergedChannel(bs[..i], c) + [] == MergedChannel(bs[..i], c);
    }
  }

  lemma PlaceStep<T>(bs: seq<Option<Buffer<T>>>, i: nat, c: int, n: nat, zero: T)
    requires AllPlayable(bs) && i < |bs| && bs[i].Some? && bs[i].value.length <= n
    ensures AllPlayable(bs[..i]) && AllPlayable(bs[..i + 1])
    ensures TotalLength(bs[..i + 1]) == TotalLength(bs[..i]) + bs[i].value.length
    ensures Placed(MergedChannel(bs[..i], c) + Zeros(n, zero), SourceChannel(bs[i].value, c), TotalLength(bs[..i]))
      == MergedChannel(bs[..i + 1], c) + Zeros(n - bs[i].value.length, zero)
  {
    MergedStep(bs, i, c);
    PlacedOnZeros(MergedChannel(bs[..i], c), SourceChannel(bs[i].value, c), n, zero);
  }

  /** The first loop of mergeBuffers: the length of the merged buffer. */
  method SumLengths<T>(audioBuffers: seq<Option<Buffer<T>>>) returns (totalLength: nat)
    ensures totalLength == TotalLength(audioBuffers)
  {
    var bs := audioBuffers;
    totalLength := 0;
    var i := 0;
    while i < |bs|
      invariant 0 <= i <= |bs|
      invariant totalLength == TotalLength(bs[..i])
    {
      assert bs[..i + 1][..i] == bs[..i];
      if bs[i].Some? {
        totalLength := totalLength + bs[i].value.length;
      }
      i := i + 1;
    }
    assert bs[..i] == bs;
  }

  lemma AllPlaced<T>(channels: seq<seq<T>>, bs: seq<Option<Buffer<T>>>, zero: T)
    requires AllPlayable(bs) && |channels| == MergedChannelCount(bs)
    requires forall c | 0 <= c < |channels| :: channels[c] == MergedChannel(bs, c) + Zeros(0, zero)
    ensures channels == Merged(bs).channels
  {
    forall c | 0 <= c < |channels| ensures channels[c] == MergedChannel(bs, c) {
      assert MergedChannel(bs, c) + Zeros(0, zero) == MergedChannel(bs, c);
    }
  }

  lemma PrefixLength<T>(bs: seq<Option<Buffer<T>>>, i: nat)
    requires i <= |bs|
    ensures TotalLength(bs[..i]) <= TotalLength(bs)
  {
    assert bs == bs[..i] + bs[i..];
    TotalLengthConcat(bs[..i], bs[i..]);
  }

  /** bufferToWave's header for the first len frames of a buffer, and the
      size of the file: 44 bytes plus two per sample. */
  method BufferToWaveHeader<T>(abuffer: Buffer<T>, len: nat) returns (header: seq<WavHeader.byte>, fileSize: nat)
    ensures header == WavHeader.HeaderBytes(abuffer.NumberOfChannels(), abuffer.sampleRate, len)
    ensures fileSize == WavHeader.HEADER_SIZE + len * abuffer.NumberOfChannels() * 2
  {
    header, fileSize := WavHeader.WriteHeader(abuffer.NumberOfChannels(), abuffer.sampleRate, len);
  }

  /** Copies the source channels of b over the zero tail of every merged
      channel at offset. */
  method PlaceBuffer<T>(channels: seq<seq<T>>, b: Buffer<T>, offset: nat, ghost bs: seq<Option<Buffer<T>>>, ghost i: nat, totalLength: nat, zero: T)
    returns (placed: seq<seq<T>>)
    requires AllPlayable(bs) && i < |bs| && bs[i] == Some(b)
    requires offset == TotalLength(bs[..i]) && offset + b.length <= totalLength
    requires forall c | 0 <= c < |channels| :: channels[c] == MergedChannel(bs[..i], c) + Zeros(totalLength - offset, zero)
    ensures |placed| == |channels|
    ensures forall c | 0 <= c < |placed| :: placed[c] == MergedChannel(bs[..i + 1], c) + Zeros(totalLength - offset - b.length, zero)
  {
    placed := channels;
    var channel := 0;
    while channel < |channels|
      invariant 0 <= channel <= |channels| == |placed|
      invariant forall c | 0 <= c < channel :: placed[c] == MergedChannel(bs[..i + 1], c) + Zeros(totalLength - offset - b.length, zero)
      invariant forall c | channel <= c < |channels| :: placed[c] == channels[c]
    {
      var sourceData := if channel < |b.channels| then b.channels[channel] else b.channels[0];
      PlaceStep(bs, i, channel, totalLength - offset, zero);
      assert sourceData == SourceChannel(b, channel);
      var next := Placed(placed[channel], sourceData, offset);
      assert next == MergedChannel(bs[..i + 1], channel) + Zeros(totalLength - offset - b.length, zero);
      placed := placed[channel := next];
      channel := channel + 1;
    }
  }

  /** mergeBuffers: the merged buffer, and the header of the WAVE file it
      is written to. */
  method MergeBuffers<T>(audioBuffers: seq<Option<Buffer<T>>>, zero: T) returns (merged: Buffer<T>, header: seq<WavHeader.byte>, fileSize: nat)
    requires AllPlayable(audioBuffers)
    ensures merged == Merged(audioBuffers)
    ensures header == WavHeader.HeaderBytes(MergedChannelCount(audioBuffers), MergedRate(audioBuffers), TotalLength(audioBuffers))
  {
    var bs := audioBuffers;
    var totalLength := SumLengths(bs);
    var numberOfChannels := if bs != [] && bs[0].Some? then bs[0].value.NumberOfChannels() else 1;
    var sampleRate := if bs != [] && bs[0].Some? then bs[0].value.sampleRate else 44100;
    var channels := seq(numberOfChannels, _ => Zeros(totalLength, zero));
    var offset := 0;
    var i := 0;
    while i < |bs|
      invariant 0 <= i <= |bs|
      invariant offset == TotalLength(bs[..i]) <= totalLength
      invariant |channels| == numberOfChannels
      invariant forall c | 0 <= c < numberOfChannels :: channels[c] == MergedChannel(bs[..i], c) + Zeros(totalLength - offset, zero)
    {
      MergedStep(bs, i, 0);
      PrefixLength(bs, i + 1);
      if bs[i].Some? {
        channels := PlaceBuffer(channels, bs[i].value, offset, bs, i, totalLength, zero);
        offset := offset + bs[i].value.length;
      } else {
        SkipSlot(channels, bs, i, totalLength - offset, zero);
      }
      i := i + 1;
    }
    assert bs[..i] == bs;
    AllPlaced(channels, bs, zero);
    merged := Buffer(channels, totalLength, sampleRate);
    header, fileSize := BufferToWaveHeader(merged, merged.length);
  }

  /** The merged buffer is well formed, as long as all present buffers
      together, with the first slot's channel count and rate; each present
      buffer occupies the samples after those of the buffers before it, on
      each merged channel its own channel of that number or else its first. */
  lemma MergedPlacement<T>(bs: seq<Option<Buffer<T>>>, i: nat, c: nat)
    requires AllPlayable(bs) && i < |bs| && bs[i].Some? && c < MergedChannelCount(bs)
    ensures Merged(bs).Valid()
    ensures Merged(bs).NumberOfChannels() == MergedChannelCount(bs) && Merged(bs).length == TotalLength(bs)
    ensures TotalLength(bs[..i]) + bs[i].value.length <= TotalLength(bs)
    ensures Merged(bs).channels[c][TotalLength(bs[..i])..TotalLength(bs[..i]) + bs[i].value.length]
      == if c < bs[i].value.NumberOfChannels() then bs[i].value.channels[c] else bs[i].value.channels[0]
  {
    var b := bs[i].value;
    assert bs == bs[..i + 1] + bs[i + 1..];
    MergedChannelConcat(bs[..i + 1], bs[i + 1..], c);
    TotalLengthConcat(bs[..i + 1], bs[i + 1..]);
    MergedStep(bs, i, c);
    var pre := MergedChannel(bs[..i], c);
    var whole := pre + SourceChannel(b, c) + MergedChannel(bs[i + 1..], c);
    assert whole[|pre|..|pre| + b.length] == SourceChannel(b, c);
  }

  /** Slots that failed to decode contribute nothing. */
  lemma EmptySlotSkipped<T>(bs: seq<Option<Buffer<T>>>, i: nat, c: int)
    requires AllPlayable(bs) && i < |bs| && bs[i].None?
    ensures TotalLength(bs) == TotalLength(bs[..i] + bs[i + 1..])
    ensures AllPlayable(bs[..i] + bs[i + 1..])
    ensures MergedChannel(bs, c) == MergedChannel(bs[..i] + bs[i + 1..], c)
  {
    var rest := bs[..i] + bs[i + 1..];
    assert forall k | 0 <= k < |rest| :: rest[k] == (if k < i then bs[k] else bs[k + 1]);
    assert bs == bs[..i + 1] + bs[i + 1..];
    MergedChannelConcat(bs[..i + 1], bs[i + 1..], c);
    TotalLengthConcat(bs[..i + 1], bs[i + 1..]);
    MergedStep(bs, i, c);
    MergedChannelConcat(bs[..i], bs[i + 1..], c);
    TotalLengthConcat(bs[..i], bs[i + 1..]);
    assert MergedChannel(bs[..i], c) + [] == MergedChannel(bs[..i], c);
  }
}
