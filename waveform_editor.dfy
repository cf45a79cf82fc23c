/** The editing layer of src/components/WaveformEditor.jsx: a linear edit
    history with undo and redo, copy, cut and paste through a clipboard,
    silence insertion, volume adjustment of a range, and the wheel zoom.
    Selection, cursor and current time are sample positions (the source's
    seconds multiplied by the sample rate and floored). */
module WaveformEditor {
  import opened Common
  import opened AudioUtils
  import WavHeader

  /** A selected region, in samples. */
  datatype Region = Region(start: int, end: int)

  const INITIAL_ZOOM: int := 50
  const MIN_ZOOM: int := 10
  const MAX_ZOOM: int := 500
  const ZOOM_STEP: int := 10

  /** handleWheel: scrolling down zooms out by one step, anything else zooms
      in by one step, and the result stays within [MIN_ZOOM, MAX_ZOOM]. */
  function WheelZoom(prev: int, deltaY: int): (z: int)
    ensures MIN_ZOOM <= z <= MAX_ZOOM
    ensures var target := if deltaY > 0 then prev - ZOOM_STEP else prev + ZOOM_STEP;
      (MIN_ZOOM <= target <= MAX_ZOOM ==> z == target)
      && (target < MIN_ZOOM ==> z == MIN_ZOOM)
      && (target > MAX_ZOOM ==> z == MAX_ZOOM)
  {
    var delta := if deltaY > 0 then -ZOOM_STEP else ZOOM_STEP;
    var next := prev + delta;
    if next > MAX_ZOOM then MAX_ZOOM else if next < MIN_ZOOM then MIN_ZOOM else next
  }

  /** Where a paste goes. */
  datatype PasteTarget =
    | ReplaceRange(start: int, end: int)  // replace the selection
    | InsertAt(position: int, clears: bool)  // insert; clears the selection and cursor when true

  /** handlePaste's choice: the selection if there is one, else the cursor,
      else the play position; only the first two clear selection and cursor. */
  function ChoosePasteTarget(selection: Option<Region>, cursor: Option<int>, currentTime: int): (t: PasteTarget)
    ensures selection.Some? <==> t.ReplaceRange?
    ensures selection.Some? ==> t == ReplaceRange(selection.value.start, selection.value.end)
    ensures selection.None? && cursor.Some? ==> t == InsertAt(cursor.value, true)
    ensures selection.None? && cursor.None? ==> t == InsertAt(currentTime, false)
  {
    if selection.Some? then ReplaceRange(selection.value.start, selection.value.end)
    else if cursor.Some? then InsertAt(cursor.value, true)
    else InsertAt(currentTime, false)
  }

  /** The region highlighted after a paste: from where the clipboard went
      in, as long as the clipboard. */
  function PastedRange(t: PasteTarget, clipLength: nat): (r: Region)
    ensures r.end - r.start == clipLength
    ensures r.start == (if t.ReplaceRange? then t.start else t.position)
  {
    match t
    case ReplaceRange(s, _) => Region(s, s + clipLength)
    case InsertAt(p, _) => Region(p, p + clipLength)
  }

  /** The samples [start, end) of every channel, copied into freshly
      allocated channel arrays (the loops of handleCopy). */
  method CopyRange<T(0)>(b: Buffer<T>, start: nat, end: nat) returns (clip: Buffer<T>)
    requires b.Valid() && start <= end <= b.length
    ensures clip == Slice(b, start, end)
    ensures clip.Valid() && clip.NumberOfChannels() == b.NumberOfChannels() && clip.length == end - start
    ensures forall c | 0 <= c < b.NumberOfChannels() :: clip.channels[c] == b.channels[c][start..end]
  {
    var length := end - start;
    var channels: seq<seq<T>> := [];
    var c := 0;
    while c < b.NumberOfChannels()
      invariant 0 <= c <= b.NumberOfChannels() && |channels| == c
      invariant forall d | 0 <= d < c :: channels[d] == b.channels[d][start..end]
    {
      var data := new T[length];
      var i := 0;
      while i < length
        invariant 0 <= i <= length
        invariant forall j | 0 <= j < i :: data[j] == b.channels[c][start + j]
      {
        data[i] := b.channels[c][start + i];
        i := i + 1;
      }
      assert data[..] == b.channels[c][start..end];
      channels := channels + [data[..]];
      c := c + 1;
    }
    clip := Buffer(channels, length, b.sampleRate);
  }

  /** The samples outside [start, end) of every channel, kept contiguous in
      freshly allocated arrays (the loops of handleCut: before the range,
      then after it). */
  method CutRange<T(0)>(b: Buffer<T>, start: nat, end: nat) returns (r: Buffer<T>)
    requires b.Valid() && start <= end <= b.length
    ensures r == Removed(b, start, end)
    ensures r.Valid() && r.NumberOfChannels() == b.NumberOfChannels() && r.length == b.length - (end - start)
    ensures forall c | 0 <= c < b.NumberOfChannels() :: r.channels[c] == b.channels[c][..start] + b.channels[c][end..]
  {
    var channels: seq<seq<T>> := [];
    var c := 0;
    while c < b.NumberOfChannels()
      invariant 0 <= c <= b.NumberOfChannels() && |channels| == c
      invariant forall d | 0 <= d < c :: channels[d] == b.channels[d][..start] + b.channels[d][end..]
    {
      var data := SpliceChannel(b.channels[c], [], start, end);
      assert data == b.channels[c][..start] + b.channels[c][end..];
      channels := channels + [data];
      c := c + 1;
    }
    r := Buffer(channels, b.length - (end - start), b.sampleRate);
  }

  /** A copy of the buffer in which every sample at a position in [start, end)
      is passed through `gain` and every other sample is kept (the loop of
      handleVolumeAdjust; `gain` stands for the scaling and clamping of a
      sample). */
  method ScaleRange<T(0)>(b: Buffer<T>, start: int, end: int, gain: T -> T) returns (r: Buffer<T>)
    requires b.Valid()
    ensures r.Valid() && r.NumberOfChannels() == b.NumberOfChannels()
    ensures r.length == b.length && r.sampleRate == b.sampleRate
    ensures forall c, i | 0 <= c < b.NumberOfChannels() && 0 <= i < b.length ::
      r.channels[c][i] == if start <= i < end then gain(b.channels[c][i]) else b.channels[c][i]
  {
    var channels: seq<seq<T>> := [];
    var c := 0;
    while c < b.NumberOfChannels()
      invariant 0 <= c <= b.NumberOfChannels() && |channels| == c
      invariant forall d | 0 <= d < c :: |channels[d]| == b.length
      invariant forall d, i | 0 <= d < c && 0 <= i < b.length ::
        channels[d][i] == if start <= i < end then gain(b.channels[d][i]) else b.channels[d][i]
    {
      var data := new T[b.length];
      var i := 0;
      while i < b.length
        invariant 0 <= i <= b.length
        invariant forall j | 0 <= j < i ::
          data[j] == if start <= j < end then gain(b.channels[c][j]) else b.channels[c][j]
      {
        if i >= start && i < end {
          data[i] := gain(b.channels[c][i]);
        } else {
          data[i] := b.channels[c][i];
        }
        i := i + 1;
      }
      channels := channels + [data[..]];
      c := c + 1;
    }
    r := Buffer(channels, b.length, b.sampleRate);
  }

  /** bufferToWaveBlob's header for a buffer, and the size of the file. */
  method BufferToWaveBlobHeader<T>(b: Buffer<T>) returns (header: seq<WavHeader.byte>, fileSize: nat)
    ensures header == WavHeader.HeaderBytes(b.NumberOfChannels(), b.sampleRate, b.length)
    ensures fileSize == WavHeader.HEADER_SIZE + b.length * b.NumberOfChannels() * 2
  {
    header, fileSize := WavHeader.WriteHeader(b.NumberOfChannels(), b.sampleRate, b.length);
  }

  /** The editor's state. The current buffer is always the history entry at
      the history index; before anything is decoded the history is empty and
      the index is -1. */
  class Editor<T(0)> {
    var history: seq<Buffer<T>>
    var historyIndex: int
    var audioBuffer: Option<Buffer<T>>
    var clipboard: Option<Buffer<T>>
    var selection: Option<Region>
    var cursor: Option<int>
    var currentTime: int
    var zoom: int

    ghost predicate Valid()
      reads this
    {
      && -1 <= historyIndex < |history|
      && (historyIndex == -1 <==> history == [])
      && (audioBuffer.None? <==> history == [])
      && (audioBuffer.Some? ==> audioBuffer.value == history[historyIndex])
      && (forall k | 0 <= k < |history| :: history[k].Valid())
      && (clipboard.Some? ==> clipboard.value.Valid())
      && MIN_ZOOM <= zoom <= MAX_ZOOM
    }

    /** The initial state of the component. */
    constructor ()
      ensures Valid()
      ensures history == [] && historyIndex == -1 && audioBuffer.None? && clipboard.None?
      ensures selection.None? && cursor.None? && currentTime == 0 && zoom == INITIAL_ZOOM
    {
      history := [];
      historyIndex := -1;
      audioBuffer := None;
      clipboard := None;
      selection := None;
      cursor := None;
      currentTime := 0;
      zoom := INITIAL_ZOOM;
    }

    /** The undo button is enabled. */
    predicate CanUndo()
      reads this
    {
      historyIndex > 0
    }

    /** The redo button is enabled. */
    predicate CanRedo()
      reads this
    {
      historyIndex < |history| - 1
    }

    /** decodeAudioForEditing: a decoded buffer starts a history of its own;
      a failed decode (None) changes nothing. */
    method LoadDecoded(decoded: Option<Buffer<T>>)
      requires Valid()
      requires decoded.Some? ==> decoded.value.Valid()
      modifies this`history, this`historyIndex, this`audioBuffer
      ensures Valid()
      ensures decoded.Some? ==> history == [decoded.value] && historyIndex == 0 && audioBuffer == decoded
      ensures decoded.None? ==> history == old(history) && historyIndex == old(historyIndex) && audioBuffer == old(audioBuffer)
    {
      if decoded.Some? {
        audioBuffer := decoded;
        history := [decoded.value];
        historyIndex := 0;
      }
    }

    /** updateAudioBuffer: the entries after the current one are discarded,
      the new buffer is appended and becomes current. */
    method UpdateAudioBuffer(b: Buffer<T>)
      requires Valid() && b.Valid()
      modifies this`history, this`historyIndex, this`audioBuffer
      ensures Valid()
      ensures history == old(history)[..old(historyIndex) + 1] + [b]
      ensures historyIndex == old(historyIndex) + 1 && audioBuffer == Some(b)
      ensures !CanRedo()
    {
      audioBuffer := Some(b);
      history := history[..historyIndex + 1] + [b];
      historyIndex := historyIndex + 1;
    }

    /** handleUndo: one step back when there is an earlier entry. */
    method Undo()
      requires Valid()
      modifies this`historyIndex, this`audioBuffer
      ensures Valid() && history == old(history)
      ensures old(CanUndo()) ==> historyIndex == old(historyIndex) - 1 && audioBuffer == Some(history[historyIndex])
      ensures !old(CanUndo()) ==> historyIndex == old(historyIndex) && audioBuffer == old(audioBuffer)
      ensures old(CanUndo()) ==> CanRedo()
    {
      if historyIndex > 0 {
        historyIndex := historyIndex - 1;
        audioBuffer := Some(history[historyIndex]);
      }
    }

    /** handleRedo: one step forward when there is a later entry. */
    method Redo()
      requires Valid()
      modifies this`historyIndex, this`audioBuffer
      ensures Valid() && history == old(history)
      ensures old(CanRedo()) ==> historyIndex == old(historyIndex) + 1 && audioBuffer == Some(history[historyIndex])
      ensures !old(CanRedo()) ==> historyIndex == old(historyIndex) && audioBuffer == old(audioBuffer)
      ensures old(CanRedo()) ==> CanUndo()
    {
      if historyIndex < |history| - 1 {
        historyIndex := historyIndex + 1;
        audioBuffer := Some(history[historyIndex]);
      }
    }

    /** The selection, when it is not empty, lies inside the buffer. */
    predicate SelectionInBuffer()
      reads this
    {
      selection.Some? && audioBuffer.Some? && selection.value.start < selection.value.end
      ==> 0 <= selection.value.start && selection.value.end <= audioBuffer.value.length
    }

    /** handleCopy: a non-empty selection of a loaded buffer is copied to the
      clipboard; otherwise nothing changes. */
    method Copy()
      requires Valid() && SelectionInBuffer()
      modifies this`clipboard
      ensures Valid()
      ensures selection.Some? && audioBuffer.Some? && selection.value.start < selection.value.end
        ==> clipboard == Some(Slice(audioBuffer.value, selection.value.start, selection.value.end))
      ensures !(selection.Some? && audioBuffer.Some? && selection.value.start < selection.value.end)
        ==> clipboard == old(clipboard)
    {
      if selection.None? || audioBuffer.None? {
        return;
      }
      var start, end := selection.value.start, selection.value.end;
      if end - start <= 0 {
        return;
      }
      var clip := CopyRange(audioBuffer.value, start, end);
      clipboard := Some(clip);
    }

    /** handleCut: copy, then, for a non-empty selection, record the buffer
      without the selected samples and clear the selection and the cursor. */
    method Cut()
      requires Valid() && SelectionInBuffer()
      modifies this`clipboard, this`history, this`historyIndex, this`audioBuffer, this`selection, this`cursor
      ensures Valid()
      ensures var sel := old(selection); var buf := old(audioBuffer);
        if sel.Some? && buf.Some? && sel.value.start < sel.value.end then
          && clipboard == Some(Slice(buf.value, sel.value.start, sel.value.end))
          && history == old(history)[..old(historyIndex) + 1] + [Removed(buf.value, sel.value.start, sel.value.end)]
          && historyIndex == old(historyIndex) + 1
          && audioBuffer == Some(Removed(buf.value, sel.value.start, sel.value.end))
          && selection.None? && cursor.None?
        else
          clipboard == old(clipboard) && history == old(history) && historyIndex == old(historyIndex)
          && audioBuffer == old(audioBuffer) && selection == old(selection) && cursor == old(cursor)
    {
      if selection.None? || audioBuffer.None? {
        return;
      }
      Copy();
      var start, end := selection.value.start, selection.value.end;
      if end - start <= 0 {
        return;
      }
      var b := CutRange(audioBuffer.value, start, end);
      UpdateAudioBuffer(b);
      selection := None;
      cursor := None;
    }

    /** handlePaste: the clipboard replaces the selection, or is inserted at
      the cursor, or at the play position; afterwards the pasted range is
      the selection and there is no cursor. An edit that throws changes
      nothing. */
    method Paste()
      requires Valid()
      modifies this`history, this`historyIndex, this`audioBuffer, this`selection, this`cursor
      ensures Valid()
      ensures var buf := old(audioBuffer); var clip := old(clipboard);
        var target := ChoosePasteTarget(old(selection), old(cursor), currentTime);
        var ok := buf.Some? && clip.Some? && clip.value.NumberOfChannels() > 0 && match target
          case ReplaceRange(s, e) => 0 <= s < e <= buf.value.length
          case InsertAt(p, _) => 0 <= p <= buf.value.length;
        if ok then
          && audioBuffer == Some(match target
               case ReplaceRange(s, e) => Spliced(buf.value, clip.value, s, e)
               case InsertAt(p, _) => Spliced(buf.value, clip.value, p, p))
          && history == old(history)[..old(historyIndex) + 1] + [audioBuffer.value]
          && historyIndex == old(historyIndex) + 1
          && selection == Some(PastedRange(target, clip.value.length)) && cursor.None?
        else
          history == old(history) && historyIndex == old(historyIndex) && audioBuffer == old(audioBuffer)
          && selection == old(selection) && cursor == old(cursor)
    {
      if clipboard.None? || audioBuffer.None? {
        return;
      }
      var target := ChoosePasteTarget(selection, cursor, currentTime);
      var r;
      match target {
        case ReplaceRange(s, e) =>
          r := ReplaceSelection(audioBuffer.value, clipboard, s, e);
        case InsertAt(p, _) =>
          r := InsertAtPosition(audioBuffer.value, clipboard, p);
      }
      if r.Err? {
        return;
      }
      UpdateAudioBuffer(r.value);
      if target.ReplaceRange? || target.clears {
        selection := None;
        cursor := None;
      }
      // The region added after the reload: region-initialized clears the
      // cursor, and region-created makes it the selection.
      cursor := None;
      selection := Some(PastedRange(target, clipboard.value.length));
    }

    /** handleInsertSilence: `silenceSamples` zero samples (None when the
      requested duration is not a number) inserted at the cursor, or at the
      play position when there is no cursor; the selection is cleared and
      the cursor moves past the silence. An insertion that throws changes
      nothing. */
    method InsertSilence(silenceSamples: Option<int>, zero: T)
      requires Valid()
      modifies this`history, this`historyIndex, this`audioBuffer, this`selection, this`cursor
      ensures Valid()
      ensures var buf := old(audioBuffer);
        var position := if old(cursor).Some? then old(cursor).value else currentTime;
        var ok := buf.Some? && silenceSamples.Some? && silenceSamples.value >= 0
          && buf.value.NumberOfChannels() > 0 && 0 <= position <= buf.value.length;
        if ok then
          && audioBuffer == Some(Spliced(buf.value,
               CreateBuffer(buf.value.NumberOfChannels(), silenceSamples.value, buf.value.sampleRate, zero),
               position, position))
          && history == old(history)[..old(historyIndex) + 1] + [audioBuffer.value]
          && historyIndex == old(historyIndex) + 1
          && selection.None? && cursor == Some(position + silenceSamples.value)
        else
          history == old(history) && historyIndex == old(historyIndex) && audioBuffer == old(audioBuffer)
          && selection == old(selection) && cursor == old(cursor)
    {
      if audioBuffer.None? || silenceSamples.None? || silenceSamples.value < 0 {
        return;
      }
      var buf := audioBuffer.value;
      var silence := CreateBuffer(buf.NumberOfChannels(), silenceSamples.value, buf.sampleRate, zero);
      var position := if cursor.Some? then cursor.value else currentTime;
      var r := InsertAtPosition(buf, Some(silence), position);
      if r.Err? {
        return;
      }
      UpdateAudioBuffer(r.value);
      selection := None;
      cursor := Some(position + silenceSamples.value);
    }

    /** handleVolumeAdjust: the samples of the selection (of the whole buffer
      when nothing is selected) passed through `gain`, on `source` when one is
      given and on the current buffer otherwise; the result is recorded. */
    method VolumeAdjust(gain: T -> T, source: Option<Buffer<T>>)
      requires Valid()
      requires source.Some? ==> source.value.Valid()
      modifies this`history, this`historyIndex, this`audioBuffer
      ensures Valid()
      ensures var buf := if source.Some? then source else old(audioBuffer);
        var start := if selection.Some? then selection.value.start else 0;
        if buf.Some? then
          var b := buf.value;
          var end := if selection.Some? then selection.value.end else b.length;
          && historyIndex == old(historyIndex) + 1
          && history == old(history)[..old(historyIndex) + 1] + [audioBuffer.value]
          && audioBuffer.value.NumberOfChannels() == b.NumberOfChannels()
          && audioBuffer.value.length == b.length && audioBuffer.value.sampleRate == b.sampleRate
          && forall c, i | 0 <= c < b.NumberOfChannels() && 0 <= i < b.length ::
               audioBuffer.value.channels[c][i] == if start <= i < end then gain(b.channels[c][i]) else b.channels[c][i]
        else
          history == old(history) && historyIndex == old(historyIndex) && audioBuffer == old(audioBuffer)
    {
      var buf := if source.Some? then source else audioBuffer;
      if buf.None? {
        return;
      }
      var b := buf.value;
      var start := if selection.Some? then selection.value.start else 0;
      var end := if selection.Some? then selection.value.end else b.length;
      var scaled := ScaleRange(b, start, end, gain);
      UpdateAudioBuffer(scaled);
    }

    /** handleWheel. */
    method Wheel(deltaY: int)
      requires Valid()
      modifies this`zoom
      ensures Valid() && zoom == WheelZoom(old(zoom), deltaY)
    {
      zoom := WheelZoom(zoom, deltaY);
    }
  }
}
