/** The workspace of src/pages/TtsEditor.jsx: the data a synthesis run
    reads (numbered lines of the text tab, or the rows imported from a file
    or pasted), the audio groups it produces (one segment per sentence or
    one per text), the cache of merged group audio keyed by group position,
    the updates and deletions of segments and groups, and the zip archive
    the download packs. Text-to-speech calls, object URLs and merging are
    given as functions: their outcomes are inputs here. */
module TtsEditor {
  import opened Common
  import opened EditorData
  import opened FileParser
  import TextUtils

  // ---------------------------------------------------------------------------
  // The data of a synthesis run
  // ---------------------------------------------------------------------------

  /** The two input tabs: tabValue 1 is the text tab, anything else the
      file tab. */
  datatype Tab = FileTab | TextTab

  datatype SynthesisError =
    | NoVoice      // no voice chosen
    | NoText       // the text tab holds only whitespace
    | NoTextLines  // the text tab has no line with content
    | NoFileData   // nothing was imported for the file tab
    | NoData       // the imported data holds no row

  predicate HasContent(line: string) {
    Trim(line) != ""
  }

  /** The lines of the trimmed text that hold more than whitespace, each
      kept as written (not trimmed). */
  function TextLines(text: string): seq<string> {
    Filter(Split(text, '\n'), HasContent)
  }

  /** The items of the text tab, numbered from 1. */
  function Numbered(lines: seq<string>): (r: seq<Row>)
    ensures |r| == |lines|
  {
    seq(|lines|, k requires 0 <= k < |lines| => Row(NatToString(k + 1), lines[k]))
  }

  /** The data handleSynthesize reads, or the error it stops with. */
  function SynthesisData(voice: string, tab: Tab, textInput: string, excelData: Option<seq<Row>>): Result<seq<Row>, SynthesisError> {
    if voice == "" then Err(NoVoice)
    else if tab == TextTab then
      var text := Trim(textInput);
      if text == "" then Err(NoText)
      else
        var lines := TextLines(text);
        if lines == [] then Err(NoTextLines) else Ok(Numbered(lines))
    else if excelData.None? then Err(NoFileData)
    else if excelData.value == [] then Err(NoData)
    else Ok(excelData.value)
  }

  lemma {:induction false} SplitCovers(s: string, sep: char, c: char)
    requires c in s && c != sep
    ensures exists i | 0 <= i < |Split(s, sep)| :: c in Split(s, sep)[i]
  {
    var r := Split(s, sep);
    var rest := Split(s[1..], sep);
    if s[0] == c {
      assert c in r[0];
    } else {
      assert c in s[1..];
      SplitCovers(s[1..], sep, c);
      var i :| 0 <= i < |rest| && c in rest[i];
      if s[0] == sep {
        assert r[i + 1] == rest[i];
      } else if i == 0 {
        assert r[0] == [s[0]] + rest[0];
      } else {
        assert r[i] == rest[i];
      }
    }
  }

  /** Text that is not blank has a line with content: the text tab's
      "no valid line" error cannot follow a non-empty trimmed text. */
  lemma TextLinesNotEmpty(textInput: string)
    requires Trim(textInput) != ""
    ensures TextLines(Trim(textInput)) != []
  {
    var text := Trim(textInput);
    TrimIdempotent(textInput);
    TrimEmptyIffBlank(text);
    var k :| 0 <= k < |text| && !IsSpace(text[k]);
    SplitCovers(text, '\n', text[k]);
    var pieces := Split(text, '\n');
    var i :| 0 <= i < |pieces| && text[k] in pieces[i];
    TrimEmptyIffBlank(pieces[i]);
    FilterMember(pieces, HasContent, pieces[i]);
  }

  /** Without a voice nothing is synthesised. The text tab numbers the
      lines of the trimmed text that are not blank 1, 2, ... and fails only
      on blank text; the file tab takes the imported rows as they are and
      fails when there are none. Data that is accepted is never empty. */
  lemma SynthesisDataOutcomes(voice: string, tab: Tab, textInput: string, excelData: Option<seq<Row>>)
    ensures SynthesisData(voice, tab, textInput, excelData) == Err(NoVoice) <==> voice == ""
    ensures SynthesisData(voice, tab, textInput, excelData) != Err(NoTextLines)
    ensures SynthesisData(voice, tab, textInput, excelData).Ok? ==> SynthesisData(voice, tab, textInput, excelData).value != []
    ensures voice != "" && tab == TextTab ==>
      (SynthesisData(voice, tab, textInput, excelData) == Err(NoText) <==> IsBlank(textInput))
      && (!IsBlank(textInput) ==>
        var lines := TextLines(Trim(textInput));
        var data := SynthesisData(voice, tab, textInput, excelData);
        data.Ok? && |data.value| == |lines|
        && forall k | 0 <= k < |lines| :: data.value[k] == Row(NatToString(k + 1), lines[k]) && !IsBlank(lines[k]))
    ensures voice != "" && tab == FileTab ==>
      (SynthesisData(voice, tab, textInput, excelData) == Err(NoFileData) <==> excelData.None?)
      && (SynthesisData(voice, tab, textInput, excelData) == Err(NoData) <==> excelData == Some([]))
      && (excelData.Some? && excelData.value != [] ==> SynthesisData(voice, tab, textInput, excelData) == Ok(excelData.value))
  {
    TrimEmptyIffBlank(textInput);
    if voice != "" && tab == TextTab && !IsBlank(textInput) {
      TextLinesNotEmpty(textInput);
      var lines := TextLines(Trim(textInput));
      forall k | 0 <= k < |lines| ensures !IsBlank(lines[k]) {
        FilterMember(Split(Trim(textInput), '\n'), HasContent, lines[k]);
        TrimEmptyIffBlank(lines[k]);
      }
    }
  }

  // ---------------------------------------------------------------------------
  // Synthesis
  // ---------------------------------------------------------------------------

  /** What one text-to-speech call gives: the audio or the error message. */
  datatype Speech = Spoken(blob: Blob) | Failed(message: string)

  /** The texts a group is synthesised from: its sentences when splitting
      is chosen, else the whole text. */
  function SegmentTexts(item: Row, shouldSplit: bool): seq<string> {
    if shouldSplit then TextUtils.Sentences(item.text) else [item.text]
  }

  /** The segments of all items, counted before the synthesis starts. */
  function TotalSegments(data: seq<Row>, shouldSplit: bool): nat {
    if data == [] then 0
    else TotalSegments(data[..|data| - 1], shouldSplit) + |SegmentTexts(data[|data| - 1], shouldSplit)|
  }

  /** The record of one segment: audio, its object URL and played = false
      on success; the error message otherwise. */
  function SegmentOf(text: string, outcome: Speech, urlOf: Blob -> string): Segment {
    match outcome
    case Spoken(blob) => Segment(text, Some(blob), Some(urlOf(blob)), false, false, None)
    case Failed(message) => Segment(text, None, None, false, false, Some(message))
  }

  function SynthesizedGroup(item: Row, shouldSplit: bool, speak: string -> Speech, urlOf: Blob -> string): AudioGroup {
    var texts := SegmentTexts(item, shouldSplit);
    AudioGroup(item.index, item.text,
      seq(|texts|, j requires 0 <= j < |texts| => SegmentOf(texts[j], speak(texts[j]), urlOf)),
      None, None, false, false)
  }

  function SynthesizedGroups(data: seq<Row>, shouldSplit: bool, speak: string -> Speech, urlOf: Blob -> string): (r: seq<AudioGroup>)
    ensures |r| == |data|
  {
    seq(|data|, k requires 0 <= k < |data| => SynthesizedGroup(data[k], shouldSplit, speak, urlOf))
  }

  /** The segments of several groups. */
  function SegmentCount(groups: seq<AudioGroup>): nat {
    if groups == [] then 0 else SegmentCount(groups[..|groups| - 1]) + |groups[|groups| - 1].segments|
  }

  lemma {:induction false} SegmentCountMatches(data: seq<Row>, shouldSplit: bool, speak: string -> Speech, urlOf: Blob -> string)
    ensures SegmentCount(SynthesizedGroups(data, shouldSplit, speak, urlOf)) == TotalSegments(data, shouldSplit)
  {
    if data != [] {
      var init := data[..|data| - 1];
      var groups := SynthesizedGroups(data, shouldSplit, speak, urlOf);
      assert groups[..|groups| - 1] == SynthesizedGroups(init, shouldSplit, speak, urlOf);
      SegmentCountMatches(init, shouldSplit, speak, urlOf);
    }
  }

  /** One group per item, in order, named and worded as the item; one
      segment per text (per sentence when splitting, a single one of the
      whole text otherwise) in order, carrying audio and a URL exactly when
      its call succeeded and the error otherwise; the progress total is the
      number of segments made. */
  lemma SynthesizedShape(data: seq<Row>, shouldSplit: bool, speak: string -> Speech, urlOf: Blob -> string)
    ensures var groups := SynthesizedGroups(data, shouldSplit, speak, urlOf);
      SegmentCount(groups) == TotalSegments(data, shouldSplit)
      && forall k | 0 <= k < |data| ::
        var g := groups[k];
        var texts := SegmentTexts(data[k], shouldSplit);
        g.index == data[k].index && g.text == data[k].text && |g.segments| == |texts|
        && (!shouldSplit ==> |g.segments| == 1 && g.segments[0].text == data[k].text)
        && forall j | 0 <= j < |texts| ::
          g.segments[j].text == texts[j] && !g.segments[j].played && !g.segments[j].recent
          && (g.segments[j].error.None? <==> speak(texts[j]).Spoken?)
          && (g.segments[j].blob.Some? <==> speak(texts[j]).Spoken?)
          && (speak(texts[j]).Spoken? ==> g.segments[j].blob == Some(speak(texts[j]).blob) && g.segments[j].url == Some(urlOf(speak(texts[j]).blob)))
          && (speak(texts[j]).Failed? ==> g.segments[j].error == Some(speak(texts[j]).message))
  {
    SegmentCountMatches(data, shouldSplit, speak, urlOf);
  }

  /** shouldSplit ? splitTextIntoSentences(item.text) : [item.text] */
  method TextsOf(item: Row, shouldSplit: bool) returns (segments: seq<string>)
    ensures segments == SegmentTexts(item, shouldSplit)
  {
    if shouldSplit {
      segments := TextUtils.SplitTextIntoSentences(item.text);
    } else {
      segments := [item.text];
    }
  }

  /** The segments of one group: one call per text, in order. */
  method SynthesizeGroup(item: Row, shouldSplit: bool, speak: string -> Speech, urlOf: Blob -> string) returns (audioGroup: AudioGroup)
    ensures audioGroup == SynthesizedGroup(item, shouldSplit, speak, urlOf)
  {
    var segments := TextsOf(item, shouldSplit);
    var made: seq<Segment> := [];
    var segmentIndex := 0;
    while segmentIndex < |segments|
      invariant 0 <= segmentIndex <= |segments| && |made| == segmentIndex
      invariant forall j | 0 <= j < segmentIndex :: made[j] == SegmentOf(segments[j], speak(segments[j]), urlOf)
    {
      var segmentText := segments[segmentIndex];
      var outcome := speak(segmentText);
      if outcome.Spoken? {
        made := made + [Segment(segmentText, Some(outcome.blob), Some(urlOf(outcome.blob)), false, false, None)];
      } else {
        made := made + [Segment(segmentText, None, None, false, false, Some(outcome.message))];
      }
      segmentIndex := segmentIndex + 1;
    }
    audioGroup := AudioGroup(item.index, item.text, made, None, None, false, false);
  }

  /** The loop counting the segments before synthesis. */
  method CountSegments(data: seq<Row>, shouldSplit: bool) returns (totalSegments: nat)
    ensures totalSegments == TotalSegments(data, shouldSplit)
  {
    totalSegments := 0;
    var i := 0;
    while i < |data|
      invariant 0 <= i <= |data|
      invariant totalSegments == TotalSegments(data[..i], shouldSplit)
    {
      assert data[..i + 1][..i] == data[..i];
      var segments := TextsOf(data[i], shouldSplit);
      totalSegments := totalSegments + |segments|;
      i := i + 1;
    }
    assert data[..i] == data;
  }

  // ---------------------------------------------------------------------------
  // Merged audio and the archive
  // ---------------------------------------------------------------------------

  /** !seg.error: a segment with no error, or an empty one, is merged. */
  predicate Usable(s: Segment) {
    s.error.None? || s.error.value == ""
  }

  /** The audio mergeAudioSegments reads from a group: the blobs of its
      usable segments, in order. */
  function MergeInput(segments: seq<Segment>): seq<Option<Blob>> {
    var valid := Filter(segments, Usable);
    seq(|valid|, i requires 0 <= i < |valid| => valid[i].blob)
  }

  /** Every cached entry belongs to a group and is the merge of that
      group's audio. */
  predicate CacheCoherent(groups: seq<AudioGroup>, cache: map<nat, Blob>, merge: seq<Option<Blob>> -> Blob) {
    forall k | k in cache :: k < |groups| && cache[k] == merge(MergeInput(groups[k].segments))
  }

  /** The cache once the download has filled it for the first n groups:
      a group not cached before and with usable segments gets its merge. */
  function FilledUpTo(groups: seq<AudioGroup>, cache: map<nat, Blob>, merge: seq<Option<Blob>> -> Blob, n: nat): map<nat, Blob>
    requires n <= |groups|
  {
    if n == 0 then cache
    else
      var before := FilledUpTo(groups, cache, merge, n - 1);
      if n - 1 !in before && Filter(groups[n - 1].segments, Usable) != [] then before[n - 1 := merge(MergeInput(groups[n - 1].segments))]
      else before
  }

  lemma {:induction false} FilledAt(groups: seq<AudioGroup>, cache: map<nat, Blob>, merge: seq<Option<Blob>> -> Blob, n: nat, k: nat)
    requires n <= |groups|
    ensures k < n ==> (k in FilledUpTo(groups, cache, merge, n) <==> k in cache || Filter(groups[k].segments, Usable) != [])
    ensures k >= n ==> (k in FilledUpTo(groups, cache, merge, n) <==> k in cache)
    ensures k in FilledUpTo(groups, cache, merge, n) ==>
      FilledUpTo(groups, cache, merge, n)[k] == if k in cache then cache[k] else merge(MergeInput(groups[k].segments))
  {
    if n > 0 {
      FilledAt(groups, cache, merge, n - 1, k);
    }
  }

  function Filled(groups: seq<AudioGroup>, cache: map<nat, Blob>, merge: seq<Option<Blob>> -> Blob): map<nat, Blob> {
    FilledUpTo(groups, cache, merge, |groups|)
  }

  /** The group's file names: its name split on '&'. */
  function NamesOf(g: AudioGroup): seq<string> {
    Split(g.index, '&')
  }

  function FileName(name: string): string {
    name + ".wav"
  }

  /** zip.file for each name, in order; a name written again replaces the
      earlier file. */
  function AddFiles(zip: map<string, Blob>, names: seq<string>, blob: Blob): map<string, Blob> {
    if names == [] then zip
    else AddFiles(zip, names[..|names| - 1], blob)[FileName(names[|names| - 1]) := blob]
  }

  /** The archive after the first n groups. */
  function ZipUpTo(groups: seq<AudioGroup>, filled: map<nat, Blob>, n: nat): map<string, Blob>
    requires n <= |groups|
  {
    if n == 0 then map[]
    else
      var zip := ZipUpTo(groups, filled, n - 1);
      if n - 1 in filled then AddFiles(zip, NamesOf(groups[n - 1]), filled[n - 1]) else zip
  }

  datatype DownloadError = NothingToDownload

  lemma FileNameInjective(a: string, b: string)
    requires FileName(a) == FileName(b)
    ensures a == b
  {
    assert a == FileName(a)[..|a|];
    assert b == FileName(b)[..|b|];
  }

  lemma {:induction false} AddFilesAt(zip: map<string, Blob>, names: seq<string>, blob: Blob, key: string)
    ensures key in AddFiles(zip, names, blob) <==> key in zip || exists j | 0 <= j < |names| :: FileName(names[j]) == key
    ensures (exists j | 0 <= j < |names| :: FileName(names[j]) == key) ==> AddFiles(zip, names, blob)[key] == blob
    ensures (forall j | 0 <= j < |names| :: FileName(names[j]) != key) && key in zip ==> AddFiles(zip, names, blob)[key] == zip[key]
  {
    if names != [] {
      var init := names[..|names| - 1];
      AddFilesAt(zip, init, blob, key);
      assert forall j | 0 <= j < |init| :: init[j] == names[j];
    }
  }

  /** A file is in the archive exactly when it is named after a piece of
      the name of a group that has merged audio. */
  lemma {:induction false} ZipKeys(groups: seq<AudioGroup>, filled: map<nat, Blob>, n: nat, key: string)
    requires n <= |groups|
    ensures key in ZipUpTo(groups, filled, n) <==>
      exists k, j | 0 <= k < n && k in filled && 0 <= j < |NamesOf(groups[k])| :: FileName(NamesOf(groups[k])[j]) == key
  {
    if n > 0 {
      ZipKeys(groups, filled, n - 1, key);
      if n - 1 in filled {
        AddFilesAt(ZipUpTo(groups, filled, n - 1), NamesOf(groups[n - 1]), filled[n - 1], key);
      }
    }
  }

  /** The file of a piece holds the merged audio of the last group that
      has merged audio and names that piece. */
  lemma {:induction false} ZipLastWins(groups: seq<AudioGroup>, filled: map<nat, Blob>, n: nat, k: nat, name: string)
    requires n <= |groups| && k < n && k in filled && name in NamesOf(groups[k])
    requires forall k' | k < k' < n && k' in filled :: name !in NamesOf(groups[k'])
    ensures FileName(name) in ZipUpTo(groups, filled, n)
    ensures ZipUpTo(groups, filled, n)[FileName(name)] == filled[k]
  {
    var names := NamesOf(groups[n - 1]);
    var zip := ZipUpTo(groups, filled, n - 1);
    if k == n - 1 {
      var j :| 0 <= j < |names| && names[j] == name;
      AddFilesAt(zip, names, filled[k], FileName(name));
    } else {
      ZipLastWins(groups, filled, n - 1, k, name);
      if n - 1 in filled {
        forall j | 0 <= j < |names| ensures FileName(names[j]) != FileName(name) {
          if FileName(names[j]) == FileName(name) {
            FileNameInjective(names[j], name);
          }
        }
        AddFilesAt(zip, names, filled[n - 1], FileName(name));
      }
    }
  }

  /** After the download a group keeps its cached audio, a group without
      it but with usable segments gets the merge of their audio, and a
      group with none has no audio and no file; groups that were coherent
      stay coherent. */
  lemma FilledShape(groups: seq<AudioGroup>, cache: map<nat, Blob>, merge: seq<Option<Blob>> -> Blob, k: nat)
    requires k < |groups|
    ensures k in cache ==> k in Filled(groups, cache, merge) && Filled(groups, cache, merge)[k] == cache[k]
    ensures k !in cache ==> (k in Filled(groups, cache, merge) <==> Filter(groups[k].segments, Usable) != [])
    ensures k !in cache && Filter(groups[k].segments, Usable) != [] ==> Filled(groups, cache, merge)[k] == merge(MergeInput(groups[k].segments))
    ensures CacheCoherent(groups, cache, merge) ==> CacheCoherent(groups, Filled(groups, cache, merge), merge)
  {
    FilledAt(groups, cache, merge, |groups|, k);
    if CacheCoherent(groups, cache, merge) {
      forall i | i in Filled(groups, cache, merge)
        ensures i < |groups| && Filled(groups, cache, merge)[i] == merge(MergeInput(groups[i].segments))
      {
        FilledAt(groups, cache, merge, |groups|, i);
      }
    }
  }

  // ---------------------------------------------------------------------------
  // Segment updates
  // ---------------------------------------------------------------------------

  /** The fields an update names; a field it does not name is None.
      Setting a field to undefined is Some(None). */
  datatype SegmentPatch = SegmentPatch(
    text: Option<string>, blob: Option<Option<Blob>>, url: Option<Option<string>>,
    played: Option<bool>, recent: Option<bool>, error: Option<Option<string>>)

  /** { ...segment, ...newData } */
  function Patched(s: Segment, p: SegmentPatch): Segment {
    Segment(
      if p.text.Some? then p.text.value else s.text,
      if p.blob.Some? then p.blob.value else s.blob,
      if p.url.Some? then p.url.value else s.url,
      if p.played.Some? then p.played.value else s.played,
      if p.recent.Some? then p.recent.value else s.recent,
      if p.error.Some? then p.error.value else s.error)
  }

  predicate InRange(groups: seq<AudioGroup>, groupIndex: int, segmentIndex: int) {
    0 <= groupIndex < |groups| && 0 <= segmentIndex < |groups[groupIndex].segments|
  }

  function ClearedGroup(g: AudioGroup): (r: AudioGroup)
    ensures |r.segments| == |g.segments|
  {
    g.(segments := seq(|g.segments|, j requires 0 <= j < |g.segments| => g.segments[j].(recent := false)))
  }

  /** Every segment of every group with its recent flag cleared. */
  function Cleared(groups: seq<AudioGroup>): (r: seq<AudioGroup>)
    ensures |r| == |groups|
  {
    seq(|groups|, k requires 0 <= k < |groups| => ClearedGroup(groups[k]))
  }

  function WithSegment(groups: seq<AudioGroup>, groupIndex: nat, segmentIndex: nat, s: Segment): (r: seq<AudioGroup>)
    requires InRange(groups, groupIndex, segmentIndex)
    ensures |r| == |groups|
  {
    groups[groupIndex := groups[groupIndex].(segments := groups[groupIndex].segments[segmentIndex := s])]
  }

  /** The groups after handleUpdateSegment: when the update sets recent,
      every other flag on the page is cleared first. */
  function Updated(groups: seq<AudioGroup>, groupIndex: int, segmentIndex: int, p: SegmentPatch): seq<AudioGroup> {
    if !InRange(groups, groupIndex, segmentIndex) then groups
    else
      var base := if p.recent == Some(true) then Cleared(groups) else groups;
      WithSegment(base, groupIndex, segmentIndex, Patched(base[groupIndex].segments[segmentIndex], p))
  }

  /** The URL an update revokes: the segment's old URL, when the update
      names a different one. */
  function RevokedBy(groups: seq<AudioGroup>, groupIndex: int, segmentIndex: int, p: SegmentPatch): seq<string> {
    if !InRange(groups, groupIndex, segmentIndex) then []
    else
      var prev := groups[groupIndex].segments[segmentIndex].url;
      if p.url.Some? && prev.Some? && prev.value != "" && p.url.value != prev then [prev.value] else []
  }

  /** An update outside the groups changes nothing. Otherwise the updated
      segment takes every field the update names and keeps the others; when
      the update sets recent, it is the only recent segment on the page and
      every other segment differs at most in that flag; when it does not,
      every other segment is untouched. */
  lemma UpdatedShape(groups: seq<AudioGroup>, groupIndex: int, segmentIndex: int, p: SegmentPatch)
    ensures !InRange(groups, groupIndex, segmentIndex) ==> Updated(groups, groupIndex, segmentIndex, p) == groups
    ensures |Updated(groups, groupIndex, segmentIndex, p)| == |groups|
    ensures forall k | 0 <= k < |groups| ::
      (|Updated(groups, groupIndex, segmentIndex, p)[k].segments| == |groups[k].segments| && Updated(groups, groupIndex, segmentIndex, p)[k].index == groups[k].index)
    ensures InRange(groups, groupIndex, segmentIndex) ==>
      var u := Updated(groups, groupIndex, segmentIndex, p);
      var s := groups[groupIndex].segments[segmentIndex];
      u[groupIndex].segments[segmentIndex] == Patched(if p.recent == Some(true) then s.(recent := false) else s, p)
      && (p.recent == Some(true) ==> forall k, j | 0 <= k < |u| && 0 <= j < |u[k].segments| ::
            (u[k].segments[j].recent <==> k == groupIndex && j == segmentIndex)
            && ((k, j) != (groupIndex, segmentIndex) ==> u[k].segments[j] == groups[k].segments[j].(recent := false)))
      && (p.recent != Some(true) ==> forall k, j | 0 <= k < |u| && 0 <= j < |u[k].segments| && (k, j) != (groupIndex, segmentIndex) ::
            u[k].segments[j] == groups[k].segments[j])
  {
  }

  /** A merged file reads only the audio of the usable segments, so an
      update that names no URL, no audio and no error leaves it valid. */
  lemma UpdateKeepsMergeInput(groups: seq<AudioGroup>, groupIndex: int, segmentIndex: int, p: SegmentPatch)
    requires p.url.None? && p.blob.None? && p.error.None?
    ensures forall k | 0 <= k < |groups| ::
      MergeInput(Updated(groups, groupIndex, segmentIndex, p)[k].segments) == MergeInput(groups[k].segments)
  {
    var u := Updated(groups, groupIndex, segmentIndex, p);
    forall k | 0 <= k < |groups| ensures MergeInput(u[k].segments) == MergeInput(groups[k].segments) {
      SameAudioSameInput(groups[k].segments, u[k].segments);
    }
  }

  /** Segments with the same audio and errors give the same merge input. */
  lemma {:induction false} SameAudioSameInput(a: seq<Segment>, b: seq<Segment>)
    requires |a| == |b|
    requires forall i | 0 <= i < |a| :: a[i].blob == b[i].blob && a[i].error == b[i].error
    ensures MergeInput(a) == MergeInput(b)
  {
    if a != [] {
      SameAudioSameInput(a[1..], b[1..]);
      var fa := Filter(a, Usable);
      var fb := Filter(b, Usable);
      assert |fa| == |fb|;
      SameAudioFilter(a, b);
    }
  }

  lemma {:induction false} SameAudioFilter(a: seq<Segment>, b: seq<Segment>)
    requires |a| == |b|
    requires forall i | 0 <= i < |a| :: a[i].blob == b[i].blob && a[i].error == b[i].error
    ensures |Filter(a, Usable)| == |Filter(b, Usable)|
    ensures forall i | 0 <= i < |Filter(a, Usable)| :: Filter(a, Usable)[i].blob == Filter(b, Usable)[i].blob
  {
    if a != [] {
      SameAudioFilter(a[1..], b[1..]);
    }
  }

  // ---------------------------------------------------------------------------
  // Deletions, and the cache after them
  // ---------------------------------------------------------------------------

  /** The URLs of the segments that have one. */
  function UrlsOf(segments: seq<Segment>): seq<string> {
    if segments == [] then []
    else
      var last := segments[|segments| - 1];
      UrlsOf(segments[..|segments| - 1]) + (if last.url.Some? && last.url.value != "" then [last.url.value] else [])
  }

  function RemovedAt<T>(xs: seq<T>, i: nat): (r: seq<T>)
    requires i < |xs|
    ensures |r| == |xs| - 1
  {
    xs[..i] + xs[i + 1..]
  }

  /** handleDeleteGroup's cache as written: the deleted group's entry is
      dropped, the entries of the groups after it keep their old keys. */
  function CacheAfterDeleteAsWritten(cache: map<nat, Blob>, groupIndex: nat): map<nat, Blob> {
    cache - {groupIndex}
  }

  /** The cache with the deleted group's entry dropped and the entries of
      the groups after it moved down one position, as they move. */
  function CacheAfterDelete(cache: map<nat, Blob>, groupIndex: nat): map<nat, Blob> {
    var before := set k | k in cache && k < groupIndex;
    var after := set k | k in cache && k > groupIndex :: (k - 1) as nat;
    map k | k in before + after :: if k < groupIndex then cache[k] else cache[k + 1]
  }

  lemma CacheAfterDeleteAt(cache: map<nat, Blob>, groupIndex: nat, k: nat)
    ensures k < groupIndex ==> (k in CacheAfterDelete(cache, groupIndex) <==> k in cache)
    ensures k >= groupIndex ==> (k in CacheAfterDelete(cache, groupIndex) <==> k + 1 in cache)
    ensures k in CacheAfterDelete(cache, groupIndex) ==>
      CacheAfterDelete(cache, groupIndex)[k] == if k < groupIndex then cache[k] else cache[k + 1]
  {
    if k >= groupIndex && k + 1 in cache {
      assert ((k + 1) - 1) as nat == k;
    }
  }

  /** The cache-key shift keeps every cached file the merge of its group,
      and moves each entry with its group. */
  lemma CacheAfterDeleteCoherent(groups: seq<AudioGroup>, cache: map<nat, Blob>, merge: seq<Option<Blob>> -> Blob, groupIndex: nat)
    requires groupIndex < |groups| && CacheCoherent(groups, cache, merge)
    ensures CacheCoherent(RemovedAt(groups, groupIndex), CacheAfterDelete(cache, groupIndex), merge)
  {
    var rest := RemovedAt(groups, groupIndex);
    var shifted := CacheAfterDelete(cache, groupIndex);
    forall k | k in shifted ensures k < |rest| && shifted[k] == merge(MergeInput(rest[k].segments)) {
      CacheAfterDeleteAt(cache, groupIndex, k);
      if k < groupIndex {
        assert rest[k] == groups[k];
      } else {
        assert rest[k] == groups[k + 1];
      }
    }
  }

  /** A group of one segment with audio b. */
  function OneSegmentGroup(name: string, b: Blob): AudioGroup {
    AudioGroup(name, "t", [Segment("t", Some(b), Some("u"), false, false, None)], None, None, false, false)
  }

  /** A merge that gives the first audio it is handed. */
  function FirstAudio(bs: seq<Option<Blob>>): Blob {
    if bs != [] && bs[0].Some? then bs[0].value else Blob(0)
  }

  lemma OneSegmentInput(name: string, b: Blob)
    requires |name| == 1 && name[0] != '&'
    ensures MergeInput(OneSegmentGroup(name, b).segments) == [Some(b)]
    ensures FirstAudio(MergeInput(OneSegmentGroup(name, b).segments)) == b
    ensures Filter(OneSegmentGroup(name, b).segments, Usable) != []
    ensures NamesOf(OneSegmentGroup(name, b)) == [name]
  {
    var segs := OneSegmentGroup(name, b).segments;
    assert Filter(segs, Usable) == [segs[0]] + Filter(segs[1..], Usable);
    assert segs[1..] == [];
    assert name[1..] == [];
    assert Split(name[1..], '&') == [""];
    assert [name[0]] + "" == name;
  }

  /** Three groups "a", "b", "c", each cached with the merge of its audio. */
  function ThreeGroups(): seq<AudioGroup> {
    [OneSegmentGroup("a", Blob(1)), OneSegmentGroup("b", Blob(2)), OneSegmentGroup("c", Blob(3))]
  }

  function ThreeCached(): map<nat, Blob> {
    map[0 := Blob(1), 1 := Blob(2), 2 := Blob(3)]
  }

  lemma ThreeGroupsCoherent()
    ensures CacheCoherent(ThreeGroups(), ThreeCached(), FirstAudio)
    ensures RemovedAt(ThreeGroups(), 0) == [OneSegmentGroup("b", Blob(2)), OneSegmentGroup("c", Blob(3))]
  {
    OneSegmentInput("a", Blob(1));
    OneSegmentInput("b", Blob(2));
    OneSegmentInput("c", Blob(3));
  }

  /** The file of "c" in a download over groups "b" and "c" whose cache
      holds audio x for "c": that audio, whatever "b" has. */
  lemma FileOfSecond(cache: map<nat, Blob>, x: Blob)
    requires 1 in cache && cache[1] == x
    ensures var groups := [OneSegmentGroup("b", Blob(2)), OneSegmentGroup("c", Blob(3))];
      FileName("c") in ZipUpTo(groups, Filled(groups, cache, FirstAudio), 2)
      && ZipUpTo(groups, Filled(groups, cache, FirstAudio), 2)[FileName("c")] == x
  {
    var groups := [OneSegmentGroup("b", Blob(2)), OneSegmentGroup("c", Blob(3))];
    OneSegmentInput("b", Blob(2));
    OneSegmentInput("c", Blob(3));
    FilledShape(groups, cache, FirstAudio, 1);
    ZipLastWins(groups, Filled(groups, cache, FirstAudio), 2, 1, "c");
  }

  /** With three cached groups, deleting the first as written leaves the
      audio of "b" under key 1, where "c" now is, and the download packs it
      as c.wav; with the keys moved down, c.wav holds the audio of "c". */
  lemma DeleteGroupCacheMisaligned()
    ensures CacheCoherent(ThreeGroups(), ThreeCached(), FirstAudio)
    ensures !CacheCoherent(RemovedAt(ThreeGroups(), 0), CacheAfterDeleteAsWritten(ThreeCached(), 0), FirstAudio)
    ensures var after := RemovedAt(ThreeGroups(), 0);
      var zip := ZipUpTo(after, Filled(after, CacheAfterDeleteAsWritten(ThreeCached(), 0), FirstAudio), 2);
      FileName("c") in zip && zip[FileName("c")] == Blob(2)
    ensures CacheCoherent(RemovedAt(ThreeGroups(), 0), CacheAfterDelete(ThreeCached(), 0), FirstAudio)
    ensures var after := RemovedAt(ThreeGroups(), 0);
      var zip := ZipUpTo(after, Filled(after, CacheAfterDelete(ThreeCached(), 0), FirstAudio), 2);
      FileName("c") in zip && zip[FileName("c")] == Blob(3)
  {
    ThreeGroupsCoherent();
    var asWritten := CacheAfterDeleteAsWritten(ThreeCached(), 0);
    assert 1 in asWritten && asWritten[1] == Blob(2);
    OneSegmentInput("c", Blob(3));
    FileOfSecond(asWritten, Blob(2));
    CacheAfterDeleteCoherent(ThreeGroups(), ThreeCached(), FirstAudio, 0);
    CacheAfterDeleteAt(ThreeCached(), 0, 1);
    FileOfSecond(CacheAfterDelete(ThreeCached(), 0), Blob(3));
  }

  // ---------------------------------------------------------------------------
  // Loops of the workspace's handlers
  // ---------------------------------------------------------------------------

  /** The outer loop of handleSynthesize: one group per item, in order. */
  method SynthesizeAll(data: seq<Row>, shouldSplit: bool, speak: string -> Speech, urlOf: Blob -> string) returns (newAudioGroups: seq<AudioGroup>)
    ensures newAudioGroups == SynthesizedGroups(data, shouldSplit, speak, urlOf)
  {
    newAudioGroups := [];
    var groupIndex := 0;
    while groupIndex < |data|
      invariant 0 <= groupIndex <= |data| && |newAudioGroups| == groupIndex
      invariant forall k | 0 <= k < groupIndex :: newAudioGroups[k] == SynthesizedGroup(data[k], shouldSplit, speak, urlOf)
    {
      var audioGroup := SynthesizeGroup(data[groupIndex], shouldSplit, speak, urlOf);
      newAudioGroups := newAudioGroups + [audioGroup];
      groupIndex := groupIndex + 1;
    }
  }

  /** The first pass of handleUpdateSegment over all groups, clearing
      each recent flag. */
  method ClearRecent(groups: seq<AudioGroup>) returns (updated: seq<AudioGroup>)
    ensures updated == Cleared(groups)
  {
    updated := groups;
    var gIdx := 0;
    while gIdx < |updated|
      invariant 0 <= gIdx <= |updated| == |groups|
      invariant forall k | 0 <= k < |groups| :: updated[k] == if k < gIdx then ClearedGroup(groups[k]) else groups[k]
    {
      var segments := ClearGroupRecent(updated[gIdx].segments);
      updated := updated[gIdx := updated[gIdx].(segments := segments)];
      gIdx := gIdx + 1;
    }
  }

  method ClearGroupRecent(segments: seq<Segment>) returns (cleared: seq<Segment>)
    ensures |cleared| == |segments|
    ensures forall j | 0 <= j < |segments| :: cleared[j] == segments[j].(recent := false)
  {
    cleared := segments;
    var sIdx := 0;
    while sIdx < |cleared|
      invariant 0 <= sIdx <= |cleared| == |segments|
      invariant forall j | 0 <= j < |segments| :: cleared[j] == if j < sIdx then segments[j].(recent := false) else segments[j]
    {
      if cleared[sIdx].recent {
        cleared := cleared[sIdx := cleared[sIdx].(recent := false)];
      }
      sIdx := sIdx + 1;
    }
  }

  /** The forEach of handleDeleteGroup revoking each segment's URL. */
  method SegmentUrls(segments: seq<Segment>) returns (urls: seq<string>)
    ensures urls == UrlsOf(segments)
  {
    urls := [];
    var i := 0;
    while i < |segments|
      invariant 0 <= i <= |segments|
      invariant urls == UrlsOf(segments[..i])
    {
      assert segments[..i + 1][..i] == segments[..i];
      if segments[i].url.Some? && segments[i].url.value != "" {
        urls := urls + [segments[i].url.value];
      }
      i := i + 1;
    }
    assert segments[..i] == segments;
  }

  lemma FillStep(groups: seq<AudioGroup>, cache0: map<nat, Blob>, merge: seq<Option<Blob>> -> Blob, n: nat)
    requires n < |groups|
    ensures (n in FilledUpTo(groups, cache0, merge, n)) == (n in cache0)
    ensures (n in FilledUpTo(groups, cache0, merge, n + 1)) == (n in Filled(groups, cache0, merge))
    ensures n in Filled(groups, cache0, merge) ==> Filled(groups, cache0, merge)[n] == FilledUpTo(groups, cache0, merge, n + 1)[n]
  {
    FilledAt(groups, cache0, merge, n, n);
    FilledAt(groups, cache0, merge, n + 1, n);
    FilledAt(groups, cache0, merge, |groups|, n);
  }

  /** The loop of handleDownloadAll: the cache filled group by group and
      the archive written as it goes. */
  method Pack(groups: seq<AudioGroup>, cache0: map<nat, Blob>, merge: seq<Option<Blob>> -> Blob)
    returns (cache: map<nat, Blob>, zip: map<string, Blob>)
    ensures cache == Filled(groups, cache0, merge)
    ensures zip == ZipUpTo(groups, cache, |groups|)
  {
    ghost var filled := Filled(groups, cache0, merge);
    cache := cache0;
    zip := map[];
    var groupIndex := 0;
    while groupIndex < |groups|
      invariant 0 <= groupIndex <= |groups|
      invariant cache == FilledUpTo(groups, cache0, merge, groupIndex)
      invariant zip == ZipUpTo(groups, filled, groupIndex)
    {
      FillStep(groups, cache0, merge, groupIndex);
      if groupIndex !in cache {
        var validSegments := Filter(groups[groupIndex].segments, Usable);
        if |validSegments| > 0 {
          cache := cache[groupIndex := merge(MergeInput(groups[groupIndex].segments))];
        }
      }
      assert cache == FilledUpTo(groups, cache0, merge, groupIndex + 1);
      if groupIndex in cache {
        var audioFileNameList := Split(groups[groupIndex].index, '&');
        zip := AddNamedFiles(zip, audioFileNameList, cache[groupIndex]);
      }
      assert zip == ZipUpTo(groups, filled, groupIndex + 1);
      groupIndex := groupIndex + 1;
    }
  }

  /** The inner loop of the download: one zip.file per name. */
  method AddNamedFiles(zip: map<string, Blob>, names: seq<string>, blob: Blob) returns (r: map<string, Blob>)
    ensures r == AddFiles(zip, names, blob)
  {
    r := zip;
    var i := 0;
    while i < |names|
      invariant 0 <= i <= |names|
      invariant r == AddFiles(zip, names[..i], blob)
    {
      assert names[..i + 1][..i] == names[..i];
      r := r[FileName(names[i]) := blob];
      i := i + 1;
    }
    assert names[..i] == names;
  }

  // ---------------------------------------------------------------------------
  // The workspace
  // ---------------------------------------------------------------------------

  /** The editor's state: the audio groups, the merged audio per group
      position (mergedAudiosRef), the rows imported for the file tab
      (excelDataRef) and the object URLs revoked so far. */
  class Workspace {
    var audioGroups: seq<AudioGroup>
    var cache: map<nat, Blob>
    var excelData: Option<seq<Row>>
    var revoked: seq<string>

    constructor()
      ensures audioGroups == [] && cache == map[] && excelData == None && revoked == []
    {
      audioGroups := [];
      cache := map[];
      excelData := None;
      revoked := [];
    }

    /** handlePasteConfirm: valid pasted rows replace the imported data one
        to one; a rejected paste changes nothing. */
    method PasteConfirm(pasteContent: string) returns (r: Result<nat, ParseError>)
      modifies this
      ensures Extract(pasteContent).Ok? ==> r == Ok(|Extract(pasteContent).value|) && excelData == Some(Extract(pasteContent).value)
      ensures Extract(pasteContent).Err? ==> r == Err(Extract(pasteContent).error) && excelData == old(excelData)
      ensures audioGroups == old(audioGroups) && cache == old(cache) && revoked == old(revoked)
    {
      var rows := ExtractRows(pasteContent);
      if rows.Err? {
        return Err(rows.error);
      }
      excelData := Some(rows.value);
      return Ok(|rows.value|);
    }

    /** handleSynthesize: on accepted data the groups are replaced by the
        synthesised ones and the cache is emptied; the progress total is
        returned. On an error nothing changes. */
    method Synthesize(voice: string, tab: Tab, textInput: string, shouldSplit: bool, speak: string -> Speech, urlOf: Blob -> string)
      returns (r: Result<nat, SynthesisError>)
      modifies this
      ensures var data := SynthesisData(voice, tab, textInput, old(excelData));
        (data.Err? ==> r == Err(data.error) && audioGroups == old(audioGroups) && cache == old(cache))
        && (data.Ok? ==>
              (r == Ok(TotalSegments(data.value, shouldSplit)) && audioGroups == SynthesizedGroups(data.value, shouldSplit, speak, urlOf) && cache == map[]))
      ensures excelData == old(excelData) && revoked == old(revoked)
    {
      if voice == "" {
        return Err(NoVoice);
      }
      var data: seq<Row>;
      if tab == TextTab {
        var text := Trim(textInput);
        if text == "" {
          return Err(NoText);
        }
        var lines := TextLines(text);
        if |lines| == 0 {
          return Err(NoTextLines);
        }
        data := Numbered(lines);
      } else {
        if excelData.None? {
          return Err(NoFileData);
        }
        data := excelData.value;
      }
      if |data| == 0 {
        return Err(NoData);
      }
      audioGroups := [];
      cache := map[];
      var totalSegments := CountSegments(data, shouldSplit);
      var newAudioGroups := SynthesizeAll(data, shouldSplit, speak, urlOf);
      audioGroups := newAudioGroups;
      return Ok(totalSegments);
    }

    /** handleUpdateSegment: see Updated and RevokedBy; an update naming a
        URL drops the group's merged audio. */
    method UpdateSegment(groupIndex: int, segmentIndex: int, newData: SegmentPatch)
      modifies this
      ensures audioGroups == Updated(old(audioGroups), groupIndex, segmentIndex, newData)
      ensures revoked == old(revoked) + RevokedBy(old(audioGroups), groupIndex, segmentIndex, newData)
      ensures cache == if InRange(old(audioGroups), groupIndex, segmentIndex) && newData.url.Some? then old(cache) - {groupIndex as nat} else old(cache)
      ensures excelData == old(excelData)
    {
      var updated := audioGroups;
      if !InRange(updated, groupIndex, segmentIndex) {
        return;
      }
      var hasNewUrl := newData.url.Some?;
      var oldUrl := updated[groupIndex].segments[segmentIndex].url;
      if hasNewUrl && oldUrl.Some? && oldUrl.value != "" && newData.url.value != oldUrl {
        revoked := revoked + [oldUrl.value];
      }
      if newData.recent == Some(true) {
        updated := ClearRecent(updated);
      }
      var s := updated[groupIndex].segments[segmentIndex];
      updated := updated[groupIndex := updated[groupIndex].(segments := updated[groupIndex].segments[segmentIndex := Patched(s, newData)])];
      if hasNewUrl && groupIndex in cache {
        cache := cache - {groupIndex};
      }
      audioGroups := updated;
    }

    /** handleDeleteSegment: the segment's URL is revoked, the segment
        removed and the group's merged audio dropped; a group left empty is
        removed, and the cache entries of the later groups keep their old
        keys. */
    method DeleteSegment(groupIndex: int, segmentIndex: int)
      modifies this
      ensures !InRange(old(audioGroups), groupIndex, segmentIndex) ==>
        audioGroups == old(audioGroups) && cache == old(cache) && revoked == old(revoked)
      ensures InRange(old(audioGroups), groupIndex, segmentIndex) ==>
        var g := old(audioGroups)[groupIndex];
        var s := g.segments[segmentIndex];
        var left := RemovedAt(g.segments, segmentIndex);
        revoked == old(revoked) + (if s.url.Some? && s.url.value != "" then [s.url.value] else [])
        && cache == old(cache) - {groupIndex as nat}
        && (left != [] ==> audioGroups == old(audioGroups)[groupIndex := g.(segments := left)])
        && (left == [] ==> audioGroups == RemovedAt(old(audioGroups), groupIndex))
      ensures excelData == old(excelData)
    {
      var updated := audioGroups;
      if !InRange(updated, groupIndex, segmentIndex) {
        return;
      }
      var segments := updated[groupIndex].segments;
      var url := segments[segmentIndex].url;
      if url.Some? && url.value != "" {
        revoked := revoked + [url.value];
      }
      segments := segments[..segmentIndex] + segments[segmentIndex + 1..];
      updated := updated[groupIndex := updated[groupIndex].(segments := segments)];
      var merged := cache;
      if groupIndex in merged {
        merged := merged - {groupIndex};
      } else {
        assert merged == merged - {groupIndex};
      }
      if |segments| == 0 {
        updated := updated[..groupIndex] + updated[groupIndex + 1..];
      }
      audioGroups := updated;
      cache := merged;
    }

    /** handleDeleteGroup: the URLs of its segments are revoked, the group
        removed and its merged audio dropped; the entries of the later
        groups keep their old keys (see DeleteThenDownloadMisfiles). */
    method DeleteGroup(groupIndex: int)
      modifies this
      ensures !(0 <= groupIndex < |old(audioGroups)|) ==> audioGroups == old(audioGroups) && cache == old(cache) && revoked == old(revoked)
      ensures 0 <= groupIndex < |old(audioGroups)| ==>
        revoked == old(revoked) + UrlsOf(old(audioGroups)[groupIndex].segments)
        && audioGroups == RemovedAt(old(audioGroups), groupIndex)
        && cache == CacheAfterDeleteAsWritten(old(cache), groupIndex)
      ensures excelData == old(excelData)
    {
      var updated := audioGroups;
      if !(0 <= groupIndex < |updated|) {
        return;
      }
      var urls := SegmentUrls(updated[groupIndex].segments);
      revoked := revoked + urls;
      if groupIndex in cache {
        cache := cache - {groupIndex};
      }
      audioGroups := updated[..groupIndex] + updated[groupIndex + 1..];
    }

    /** handleDownloadAll: fills the cache for the groups that have usable
        audio and writes one file per piece of each such group's name. */
    method DownloadAll(merge: seq<Option<Blob>> -> Blob) returns (r: Result<map<string, Blob>, DownloadError>)
      modifies this
      ensures old(audioGroups) == [] ==> r == Err(NothingToDownload) && cache == old(cache)
      ensures old(audioGroups) != [] ==>
        cache == Filled(old(audioGroups), old(cache), merge) && r == Ok(ZipUpTo(old(audioGroups), cache, |old(audioGroups)|))
      ensures audioGroups == old(audioGroups) && excelData == old(excelData) && revoked == old(revoked)
    {
      if |audioGroups| == 0 {
        return Err(NothingToDownload);
      }
      var filled, zip := Pack(audioGroups, cache, merge);
      cache := filled;
      return Ok(zip);
    }
  }

  /** The workspace as written: with groups "a", "b", "c" cached, deleting
      the first and downloading packs the audio of "b" as c.wav. */
  method DeleteThenDownloadMisfiles() returns (zip: map<string, Blob>)
    ensures FileName("c") in zip && zip[FileName("c")] == Blob(2)
  {
    var w := new Workspace();
    w.audioGroups := ThreeGroups();
    w.cache := ThreeCached();
    w.DeleteGroup(0);
    var r := w.DownloadAll(FirstAudio);
    DeleteGroupCacheMisaligned();
    zip := r.value;
  }
}
