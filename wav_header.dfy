/** The 44-byte RIFF/WAVE header that src/pages/TtsEditor.jsx (bufferToWave)
    and src/components/WaveformEditor.jsx (bufferToWaveBlob) both write in
    front of 16-bit PCM samples, as the WAVE form of Microsoft/IBM
    "Multimedia Programming Interface and Data Specifications 1.0" lays it
    out: a RIFF chunk of form type WAVE holding a 16-byte "fmt " chunk
    (format tag 1, WAVE_FORMAT_PCM) and a "data" chunk. Every field is
    written little-endian through a DataView at an advancing offset, so a
    value is reduced modulo 2^16 or 2^32 as DataView.setUint16 / setUint32
    do. */
module WavHeader {

  newtype byte = x: int | 0 <= x < 256

  const HEADER_SIZE: nat := 44
  const TWO_16: int := 0x1_0000
  const TWO_32: int := 0x1_0000_0000

  /** The four-character codes, as the source writes them: one 32-bit
      little-endian integer each. */
  const RIFF_ID: int := 0x46464952
  const WAVE_ID: int := 0x45564157
  const FMT_ID: int := 0x20746d66
  const DATA_ID: int := 0x61746164

  /** The bytes of an ASCII text. */
  function Ascii(s: string): (r: seq<byte>)
    requires forall i | 0 <= i < |s| :: s[i] as int < 128
    ensures |r| == |s|
    ensures forall i | 0 <= i < |s| :: r[i] as int == s[i] as int
  {
    seq(|s|, i requires 0 <= i < |s| => s[i] as int as byte)
  }

  /** The value of two bytes read little-endian. */
  function Decode16(b: seq<byte>): nat
    requires |b| == 2
  {
    b[0] as nat + 256 * b[1] as nat
  }

  /** The value of four bytes read little-endian. */
  function Decode32(b: seq<byte>): nat
    requires |b| == 4
  {
    b[0] as nat + 256 * (b[1] as nat + 256 * (b[2] as nat + 256 * b[3] as nat))
  }

  /** The two bytes DataView.setUint16(offset, v, true) stores. */
  function LE16(v: int): (b: seq<byte>)
    ensures |b| == 2 && Decode16(b) == v % TWO_16
  {
    var u := v % TWO_16;
    [(u % 256) as byte, (u / 256) as byte]
  }

  /** The four bytes DataView.setUint32(offset, v, true) stores. */
  function LE32(v: int): (b: seq<byte>)
    ensures |b| == 4 && Decode32(b) == v % TWO_32
  {
    var u := v % TWO_32;
    var q1 := u / 256;
    var q2 := q1 / 256;
    [(u % 256) as byte, (q1 % 256) as byte, (q2 % 256) as byte, (q2 / 256) as byte]
  }

  /** The 16-bit field at offset k. */
  function U16At(s: seq<byte>, k: nat): nat
    requires k + 2 <= |s|
  {
    Decode16(s[k..k + 2])
  }

  /** The 32-bit field at offset k. */
  function U32At(s: seq<byte>, k: nat): nat
    requires k + 4 <= |s|
  {
    Decode32(s[k..k + 4])
  }

  /** The setUint16 closure of the source: store v at the offset, advance it
      by two. The bytes before the offset are kept. */
  method SetUint16(view: array<byte>, offset: nat, v: int, ghost written: seq<byte>) returns (next: nat)
    requires offset + 2 <= view.Length && view[..offset] == written
    modifies view
    ensures next == offset + 2 && view[..next] == written + LE16(v)
  {
    var u := v % TWO_16;
    view[offset] := (u % 256) as byte;
    view[offset + 1] := (u / 256) as byte;
    next := offset + 2;
    assert view[..next] == view[..offset] + view[offset..next];
  }

  /** The setUint32 closure of the source: store v at the offset, advance it
      by four. */
  method SetUint32(view: array<byte>, offset: nat, v: int, ghost written: seq<byte>) returns (next: nat)
    requires offset + 4 <= view.Length && view[..offset] == written
    modifies view
    ensures next == offset + 4 && view[..next] == written + LE32(v)
  {
    var u := v % TWO_32;
    var q1 := u / 256;
    var q2 := q1 / 256;
    view[offset] := (u % 256) as byte;
    view[offset + 1] := (q1 % 256) as byte;
    view[offset + 2] := (q2 % 256) as byte;
    view[offset + 3] := (q2 / 256) as byte;
    next := offset + 4;
    assert view[..next] == view[..offset] + view[offset..next];
  }

  /** The RIFF chunk header: its id, the size of what follows, the form type. */
  function RiffChunkHeader(dataLength: int): (r: seq<byte>)
    ensures |r| == 12
  {
    LE32(RIFF_ID) + LE32(dataLength + 36) + LE32(WAVE_ID)
  }

  /** The first half of the "fmt " chunk: id, size 16, WAVE_FORMAT_PCM,
      channels. */
  function FmtFormat(numChannels: nat): (r: seq<byte>)
    ensures |r| == 12
  {
    LE32(FMT_ID) + LE32(16) + LE16(1) + LE16(numChannels)
  }

  /** The second half: rate, byte rate, block align, bits per sample. */
  function FmtRates(numChannels: nat, sampleRate: int): (r: seq<byte>)
    ensures |r| == 12
  {
    LE32(sampleRate) + LE32(sampleRate * 2 * numChannels) + LE16(numChannels * 2) + LE16(16)
  }

  /** The "fmt " chunk. */
  function FmtChunk(numChannels: nat, sampleRate: int): (r: seq<byte>)
    ensures |r| == 24
  {
    FmtFormat(numChannels) + FmtRates(numChannels, sampleRate)
  }

  /** The "data" chunk header: its id and the size of the samples. */
  function DataChunkHeader(dataLength: int): (r: seq<byte>)
    ensures |r| == 8
  {
    LE32(DATA_ID) + LE32(dataLength)
  }

  /** The header as a byte string. */
  function HeaderBytes(numChannels: nat, sampleRate: int, frames: nat): (r: seq<byte>)
    ensures |r| == HEADER_SIZE
  {
    var length := frames * numChannels * 2;
    RiffChunkHeader(length) + FmtChunk(numChannels, sampleRate) + DataChunkHeader(length)
  }

  /** The RIFF chunk header written field by field from the offset. */
  method WriteRiffChunkHeader(view: array<byte>, offset: nat, length: int, ghost written: seq<byte>)
    returns (next: nat)
    requires offset + 12 <= view.Length && view[..offset] == written
    modifies view
    ensures next == offset + 12 && view[..next] == written + RiffChunkHeader(length)
  {
    ghost var w := written;
    next := SetUint32(view, offset, RIFF_ID, w); w := w + LE32(RIFF_ID);
    next := SetUint32(view, next, length + 36, w); w := w + LE32(length + 36);
    next := SetUint32(view, next, WAVE_ID, w); w := w + LE32(WAVE_ID);
  }

  /** The first half of the "fmt " chunk written field by field. */
  method WriteFmtFormat(view: array<byte>, offset: nat, numChannels: nat, ghost written: seq<byte>)
    returns (next: nat)
    requires offset + 12 <= view.Length && view[..offset] == written
    modifies view
    ensures next == offset + 12 && view[..next] == written + FmtFormat(numChannels)
  {
    ghost var body: seq<byte> := [];
    next := SetUint32(view, offset, FMT_ID, written + body); body := body + LE32(FMT_ID);
    next := SetUint32(view, next, 16, written + body); body := body + LE32(16);
    next := SetUint16(view, next, 1, written + body); body := body + LE16(1);
    next := SetUint16(view, next, numChannels, written + body); body := body + LE16(numChannels);
  }

  /** The second half of the "fmt " chunk written field by field. */
  method WriteFmtRates(view: array<byte>, offset: nat, numChannels: nat, sampleRate: int, ghost written: seq<byte>)
    returns (next: nat)
    requires offset + 12 <= view.Length && view[..offset] == written
    modifies view
    ensures next == offset + 12 && view[..next] == written + FmtRates(numChannels, sampleRate)
  {
    ghost var body: seq<byte> := [];
    next := SetUint32(view, offset, sampleRate, written + body); body := body + LE32(sampleRate);
    next := SetUint32(view, next, sampleRate * 2 * numChannels, written + body);
    body := body + LE32(sampleRate * 2 * numChannels);
    next := SetUint16(view, next, numChannels * 2, written + body); body := body + LE16(numChannels * 2);
    next := SetUint16(view, next, 16, written + body); body := body + LE16(16);
  }

  /** The "fmt " chunk written field by field from the offset. */
  method WriteFmtChunk(view: array<byte>, offset: nat, numChannels: nat, sampleRate: int, ghost written: seq<byte>)
    returns (next: nat)
    requires offset + 24 <= view.Length && view[..offset] == written
    modifies view
    ensures next == offset + 24 && view[..next] == written + FmtChunk(numChannels, sampleRate)
  {
    next := WriteFmtFormat(view, offset, numChannels, written);
    next := WriteFmtRates(view, next, numChannels, sampleRate, written + FmtFormat(numChannels));
  }

  /** The "data" chunk header written field by field from the offset. */
  method WriteDataChunkHeader(view: array<byte>, offset: nat, length: int, ghost written: seq<byte>)
    returns (next: nat)
    requires offset + 8 <= view.Length && view[..offset] == written
    modifies view
    ensures next == offset + 8 && view[..next] == written + DataChunkHeader(length)
  {
    ghost var w := written;
    next := SetUint32(view, offset, DATA_ID, w); w := w + LE32(DATA_ID);
    next := SetUint32(view, next, length, w); w := w + LE32(length);
  }

  /** The header fields of the source, in order, through the advancing
      offset; returns them and the size of the whole file (header plus two
      bytes per sample). */
  method WriteHeader(numChannels: nat, sampleRate: int, frames: nat) returns (header: seq<byte>, fileSize: nat)
    ensures header == HeaderBytes(numChannels, sampleRate, frames)
    ensures fileSize == HEADER_SIZE + frames * numChannels * 2
  {
    var length := frames * numChannels * 2;
    var view := new byte[HEADER_SIZE];
    var offset := 0;
    offset := WriteRiffChunkHeader(view, offset, length, []);
    offset := WriteFmtChunk(view, offset, numChannels, sampleRate, RiffChunkHeader(length));
    offset := WriteDataChunkHeader(view, offset, length, RiffChunkHeader(length) + FmtChunk(numChannels, sampleRate));
    assert view[..offset] == view[..];
    header := view[..];
    fileSize := HEADER_SIZE + length;
  }

  lemma DivMod256(lo: int, hi: int)
    requires 0 <= lo < 256 && 0 <= hi
    ensures (lo + 256 * hi) % 256 == lo && (lo + 256 * hi) / 256 == hi
  {
  }

  /** A four-character code written as an integer is its ASCII text. */
  lemma FourCharacterCode(id: int, tag: string)
    requires |tag| == 4 && forall i | 0 <= i < 4 :: tag[i] as int < 128
    requires id == tag[0] as int + 256 * (tag[1] as int + 256 * (tag[2] as int + 256 * tag[3] as int))
    ensures LE32(id) == Ascii(tag)
  {
    var t0, t1, t2, t3 := tag[0] as int, tag[1] as int, tag[2] as int, tag[3] as int;
    var hi2 := t2 + 256 * t3;
    var hi1 := t1 + 256 * hi2;
    assert id % TWO_32 == id by {
      assert 0 <= id < TWO_32;
    }
    DivMod256(t0, hi1);
    DivMod256(t1, hi2);
    DivMod256(t2, t3);
    assert LE32(id) == [t0 as byte, t1 as byte, t2 as byte, t3 as byte];
  }

  /** The fields of the RIFF chunk header at their offsets within it. */
  lemma RiffLayout(length: int)
    ensures var r := RiffChunkHeader(length);
      |r| == 12 && r[0..4] == Ascii("RIFF") && U32At(r, 4) == (length + 36) % TWO_32
      && r[8..12] == Ascii("WAVE")
  {
    var a, b, c := LE32(RIFF_ID), LE32(length + 36), LE32(WAVE_ID);
    FourCharacterCode(RIFF_ID, "RIFF");
    FourCharacterCode(WAVE_ID, "WAVE");
    var e: seq<byte> := [];
    assert a + b + c == e + a + (b + c);
    SliceInConcat(e, a, b + c, 0, 4);
    SliceInConcat(a, b, c, 0, 4);
    assert a + b + c == (a + b) + c + e;
    SliceInConcat(a + b, c, e, 0, 4);
  }

  /** Four fields of 4, 4, 2 and 2 bytes lie at offsets 0, 4, 8 and 10. */
  lemma Layout4422(a: seq<byte>, b: seq<byte>, c: seq<byte>, d: seq<byte>)
    requires |a| == 4 && |b| == 4 && |c| == 2 && |d| == 2
    ensures var s := a + b + c + d;
      s[0..4] == a && s[4..8] == b && s[8..10] == c && s[10..12] == d
  {
  }

  /** The fields of the "fmt " chunk at their offsets within it. */
  lemma FmtLayout(numChannels: nat, sampleRate: int)
    ensures var f := FmtChunk(numChannels, sampleRate);
      |f| == 24 && f[0..4] == Ascii("fmt ") && U32At(f, 4) == 16 && U16At(f, 8) == 1
      && U16At(f, 10) == numChannels % TWO_16 && U32At(f, 12) == sampleRate % TWO_32
      && U32At(f, 16) == (sampleRate * 2 * numChannels) % TWO_32
      && U16At(f, 20) == (numChannels * 2) % TWO_16 && U16At(f, 22) == 16
  {
    var x := FmtFormat(numChannels);
    var y := FmtRates(numChannels, sampleRate);
    FourCharacterCode(FMT_ID, "fmt ");
    Layout4422(LE32(FMT_ID), LE32(16), LE16(1), LE16(numChannels));
    Layout4422(LE32(sampleRate), LE32(sampleRate * 2 * numChannels), LE16(numChannels * 2), LE16(16));
    var e: seq<byte> := [];
    assert x + y == e + x + y;
    assert x + y == x + y + e;
    SliceInConcat(e, x, y, 0, 4);
    SliceInConcat(e, x, y, 4, 4);
    SliceInConcat(e, x, y, 8, 2);
    SliceInConcat(e, x, y, 10, 2);
    SliceInConcat(x, y, e, 0, 4);
    SliceInConcat(x, y, e, 4, 4);
    SliceInConcat(x, y, e, 8, 2);
    SliceInConcat(x, y, e, 10, 2);
  }

  /** The fields of the "data" chunk header at their offsets within it. */
  lemma DataLayout(length: int)
    ensures var d := DataChunkHeader(length);
      |d| == 8 && d[0..4] == Ascii("data") && U32At(d, 4) == length % TWO_32
  {
    var d := DataChunkHeader(length);
    FourCharacterCode(DATA_ID, "data");
    assert d[0..4] == LE32(DATA_ID) && d[4..8] == LE32(length);
  }

  /** A slice of a part of a concatenation is the slice of the whole at the
      part's offset. */
  lemma SliceInConcat(a: seq<byte>, b: seq<byte>, c: seq<byte>, k: nat, n: nat)
    requires k + n <= |b|
    ensures (a + b + c)[|a| + k..|a| + k + n] == b[k..k + n]
  {
  }

  lemma HeaderRiffFields(numChannels: nat, sampleRate: int, frames: nat)
    ensures var h := HeaderBytes(numChannels, sampleRate, frames);
      h[0..4] == Ascii("RIFF") && U32At(h, 4) == (frames * numChannels * 2 + 36) % TWO_32
      && h[8..12] == Ascii("WAVE")
  {
    var length := frames * numChannels * 2;
    var r := RiffChunkHeader(length);
    var rest := FmtChunk(numChannels, sampleRate) + DataChunkHeader(length);
    RiffLayout(length);
    var e: seq<byte> := [];
    assert HeaderBytes(numChannels, sampleRate, frames) == e + r + rest;
    SliceInConcat(e, r, rest, 0, 4);
    SliceInConcat(e, r, rest, 4, 4);
    SliceInConcat(e, r, rest, 8, 4);
  }

  lemma HeaderFmtFields(numChannels: nat, sampleRate: int, frames: nat)
    ensures var h := HeaderBytes(numChannels, sampleRate, frames);
      h[12..16] == Ascii("fmt ") && U32At(h, 16) == 16 && U16At(h, 20) == 1
      && U16At(h, 22) == numChannels % TWO_16 && U32At(h, 24) == sampleRate % TWO_32
      && U32At(h, 28) == (sampleRate * 2 * numChannels) % TWO_32
      && U16At(h, 32) == (numChannels * 2) % TWO_16 && U16At(h, 34) == 16
  {
    var length := frames * numChannels * 2;
    var r := RiffChunkHeader(length);
    var f := FmtChunk(numChannels, sampleRate);
    var d := DataChunkHeader(length);
    FmtLayout(numChannels, sampleRate);
    SliceInConcat(r, f, d, 0, 4);
    SliceInConcat(r, f, d, 4, 4);
    SliceInConcat(r, f, d, 8, 2);
    SliceInConcat(r, f, d, 10, 2);
    SliceInConcat(r, f, d, 12, 4);
    SliceInConcat(r, f, d, 16, 4);
    SliceInConcat(r, f, d, 20, 2);
    SliceInConcat(r, f, d, 22, 2);
  }

  lemma HeaderDataFields(numChannels: nat, sampleRate: int, frames: nat)
    ensures var h := HeaderBytes(numChannels, sampleRate, frames);
      h[36..40] == Ascii("data") && U32At(h, 40) == (frames * numChannels * 2) % TWO_32
  {
    var length := frames * numChannels * 2;
    var front := RiffChunkHeader(length) + FmtChunk(numChannels, sampleRate);
    var d := DataChunkHeader(length);
    DataLayout(length);
    var e: seq<byte> := [];
    assert HeaderBytes(numChannels, sampleRate, frames) == front + d + e;
    SliceInConcat(front, d, e, 0, 4);
    SliceInConcat(front, d, e, 4, 4);
  }

  /** The header is 44 bytes; each field sits at the offset the WAVE form
      gives it and reads back as the value written, reduced modulo 2^16 or
      2^32; the four-character codes are the ASCII texts. */
  lemma HeaderLayout(numChannels: nat, sampleRate: int, frames: nat)
    ensures var h := HeaderBytes(numChannels, sampleRate, frames);
      |h| == HEADER_SIZE
      && h[0..4] == Ascii("RIFF")
      && U32At(h, 4) == (frames * numChannels * 2 + 36) % TWO_32
      && h[8..12] == Ascii("WAVE")
      && h[12..16] == Ascii("fmt ")
      && U32At(h, 16) == 16
      && U16At(h, 20) == 1
      && U16At(h, 22) == numChannels % TWO_16
      && U32At(h, 24) == sampleRate % TWO_32
      && U32At(h, 28) == (sampleRate * 2 * numChannels) % TWO_32
      && U16At(h, 32) == (numChannels * 2) % TWO_16
      && U16At(h, 34) == 16
      && h[36..40] == Ascii("data")
      && U32At(h, 40) == (frames * numChannels * 2) % TWO_32
  {
    HeaderRiffFields(numChannels, sampleRate, frames);
    HeaderFmtFields(numChannels, sampleRate, frames);
    HeaderDataFields(numChannels, sampleRate, frames);
  }
}
