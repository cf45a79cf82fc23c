# A verified model of the TTS corpus editor

This project models the core of a browser-based text-to-speech corpus editor and its small log server, and proves properties of the model in Dafny.

The editor takes corpus rows (a name and a text) from pasted text, a TSV or spreadsheet file, or a Baize script. It synthesises each row into audio segments and lets the user edit the audio in a waveform editor. It merges each group's segments into one WAV file, downloads the files as an archive named after the corpus names, and uploads a group's merged audio to every Baize content its corpus entry stands for.

The model covers:

- **Text and parsing.** Sentence splitting is `TextUtils`. TSV parsing and aggregation of rows by text is `FileParser`. Matching, grouping and status roll-up of Baize corpus entries is `CorpusUtils` and `BaizeDataProcessor`.
- **Dialogs.** The corpus and script selection dialogs are `CorpusSelectionDialog` and `ScriptSelectionDialog`.
- **Audio.** Audio buffer splicing is `AudioUtils`. The waveform editor's clipboard, undo/redo and edit operations are `WaveformEditor`. Merging segment buffers is `TtsAudio`. The 44-byte RIFF/WAVE header is `WavHeader`.
- **The editor page.** Its workspace is `TtsEditor`: paste, synthesis, segment update and delete, group delete, and packing the download archive.
- **Hooks and storage.**
  - The single-group upload hook is `SingleUpload`.
  - The fetch retry loop is `NetworkUtils`.
  - The saved workspace is `WorkspaceStorage`, and `localStorage` is `BrowserStorage`.
  - The update notice is `UpdateNotification`, and the Baize login state is `BaizeAuth`.
- **The log server.** Its GET and POST routes are `LogServer`.

`Common` holds the string and sequence primitives that the JavaScript code takes from the language: `trim`, `split`/`join`, `includes`, `toLowerCase`, `filter` and `Set`. `EditorData` holds the records the modules share.

Where the source updates state in place, the model does too:

- The waveform editor, the workspace, the selection dialog, the hooks, the stores and the log table are classes whose methods have `modifies` clauses.
- Loops in the source are methods with `while` loops. Each is proved equal to a declarative function, and the lemmas about that function state what the code promises.
- Pure helpers are functions.

Services the code calls but which are not part of this model enter as parameters:

- speech synthesis, and decoding and merging of audio;
- `URL.createObjectURL`, the Baize API, `fetch` and `JSON.stringify`;
- the clock, and the current version of the update notice.

## Model

| member | source | states |
|---|---|---|
| Common.TrimShape | src/utils/fileParser.js:138-139 | trim removes exactly a blank prefix and a blank suffix and leaves a text that neither starts nor ends with whitespace |
| Common.TrimEmptyIffBlank | src/utils/fileParser.js:113 | a trimmed text is empty iff the text is whitespace only |
| Common.TrimIdempotent | src/utils/fileParser.js:77 | trimming twice is trimming once |
| Common.ContainsIffOccurs | src/hooks/useSingleUpload.js:119 | includes holds iff the text occurs at some position |
| Common.Split | src/utils/fileParser.js:124 | split gives at least one part, none holding the separator |
| Common.JoinSplit | src/utils/fileParser.js:124 | joining the parts of a split with the separator gives the text back |
| Common.SplitJoin | src/utils/fileParser.js:25 | splitting a join of separator-free parts gives the parts back |
| Common.Distinct | src/utils/fileParser.js:19 | the set of a list holds exactly its elements, no more of them |
| Common.DistinctNoDuplicates | src/utils/fileParser.js:19 | the set of a list repeats no element |
| Common.DistinctOrder | src/utils/fileParser.js:19 | the set keeps its elements in the order they were first added |
| AudioUtils.CreateBuffer | setupTests.js:9-24 | a fresh buffer has the requested channel count, length and rate, every channel that length, every sample zero |
| AudioUtils.Spliced | src/utils/audioUtils.js:30-41 | the splice result keeps the source's channel count and rate and has length source − (end − start) + clipboard |
| AudioUtils.SpliceChannel | src/utils/audioUtils.js:44-57 | the three copy loops fill the new channel with exactly source[..start] ++ clipboard ++ source[end..] |
| AudioUtils.SpliceChannels | src/utils/audioUtils.js:39-58 | every output channel c is the splice of source channel c with clipboard channel c mod the clipboard's channel count |
| AudioUtils.ReplaceSelection | src/utils/audioUtils.js:15-61 | a missing or channel-less clipboard is rejected first, then start < 0, end > length or start ≥ end; otherwise the new buffer has length − (end − start) + clipboard length, the source's rate and channel count, and each channel is prefix, wrapped clipboard channel, suffix |
| AudioUtils.InsertAtPosition | src/utils/audioUtils.js:71-115 | the clipboard check comes first; positions 0..length inclusive are accepted and all others rejected; the new buffer has length source + clipboard and each channel is prefix, wrapped clipboard channel, suffix |
| AudioUtils.Slice | src/components/WaveformEditor.jsx:476-488 | the copied buffer has the source's channels and rate and length end − start |
| AudioUtils.Removed | src/components/WaveformEditor.jsx:506-525 | the cut buffer has the source's channels and rate and length shrunk by end − start |
| AudioUtils.CutThenInsertRestores | src/components/WaveformEditor.jsx:494-528 | inserting the cut samples back where they were cut gives back the original buffer |
| AudioUtils.ReplaceIsCutThenInsert | src/utils/audioUtils.js:30-57 | replacing [start, end) equals removing it and inserting the clipboard at start |
| AudioUtils.ReplaceBySelfCopy | src/utils/audioUtils.js:44-57 | replacing a selection with a copy of itself leaves the buffer unchanged |
| WaveformEditor.WheelZoom | src/components/WaveformEditor.jsx:396-400 | scrolling down zooms out by 10 and anything else zooms in by 10, and the result is clamped to [10, 500] |
| WaveformEditor.CopyRange | src/components/WaveformEditor.jsx:476-488 | every clipboard channel is exactly samples [start, end) of the same source channel |
| WaveformEditor.CutRange | src/components/WaveformEditor.jsx:506-525 | every channel keeps [0, start) and [end, length) contiguous, so the length shrinks by end − start |
| WaveformEditor.ScaleRange | src/components/WaveformEditor.jsx:656-673 | samples inside [start, end) pass through the gain; all others are unchanged; the channel count, length and rate are kept |
| WaveformEditor.BufferToWaveBlobHeader | src/components/WaveformEditor.jsx:26-50 | the 44-byte header is the RIFF/WAVE PCM header of the buffer, and the file size is 44 + length·channels·2 |
| WaveformEditor.Editor.constructor | src/components/WaveformEditor.jsx:82-91 | the editor starts with empty history, index −1, no buffer, no clipboard, selection or cursor, and zoom 50 |
| WaveformEditor.Editor.LoadDecoded | src/components/WaveformEditor.jsx:162-176 | a decoded buffer sets history to [decoded] with index 0; a failed decode changes nothing |
| WaveformEditor.Editor.UpdateAudioBuffer | src/components/WaveformEditor.jsx:449-458 | history becomes history[..index+1] plus the new buffer, the index grows by one, and redo is no longer possible |
| WaveformEditor.Editor.Undo | src/components/WaveformEditor.jsx:715-725 | when index > 0, it steps back one and shows history[index]; otherwise nothing changes; history itself never changes |
| WaveformEditor.Editor.Redo | src/components/WaveformEditor.jsx:728-738 | when index < length − 1, it steps forward one and shows history[index]; otherwise nothing changes; history itself never changes |
| WaveformEditor.Editor.Copy | src/components/WaveformEditor.jsx:467-491 | a non-empty selection of a loaded buffer puts exactly its samples on the clipboard; otherwise the clipboard is unchanged |
| WaveformEditor.Editor.Cut | src/components/WaveformEditor.jsx:494-529 | a non-empty selection is copied, the buffer without it is recorded as a new history entry, and selection and cursor are cleared; otherwise nothing changes |
| WaveformEditor.Editor.Paste | src/components/WaveformEditor.jsx:532-605 | the chosen target's replace or insert is recorded, and afterwards the pasted range (from the target's start, as long as the clipboard) is the selection and there is no cursor, as the region added after the reload makes it; a missing buffer or clipboard, or a rejected edit, changes nothing |
| WaveformEditor.Editor.InsertSilence | src/components/WaveformEditor.jsx:608-642 | a zero buffer of the requested length is inserted at the cursor, else at the current time; the selection is cleared and the cursor moves past the silence; a rejected insert changes nothing |
| WaveformEditor.Editor.VolumeAdjust | src/components/WaveformEditor.jsx:645-676 | the given buffer, else the current one, is recorded with the gain applied exactly inside the selection (the whole buffer when there is none) |
| WaveformEditor.Editor.Wheel | src/components/WaveformEditor.jsx:396-400 | zoom becomes the clamped wheel step of the old zoom |
| TextUtils.Pieces | src/utils/textUtils.js:14 | the capturing split alternates delimiter-free runs with single delimiters, with an odd number of pieces |
| TextUtils.PiecesConcat | src/utils/textUtils.js:14 | the pieces concatenate back to the text |
| TextUtils.NonEmpty | src/utils/textUtils.js:35 | the final filter keeps no empty string |
| TextUtils.SplitTextIntoSentences | src/utils/textUtils.js:10-36 | the loop returns exactly the declarative sentence list: [] for empty input, otherwise the gathered, trimmed sentences |
| TextUtils.CompletedSentence | src/utils/textUtils.js:21-27 | completing the current sentence at a delimiter gives a trimmed, non-empty sentence that ends with that delimiter and has none before it |
| TextUtils.SkipInvariant | src/utils/textUtils.js:19 | a whitespace-only piece is skipped without losing any non-space character |
| TextUtils.RunInvariant | src/utils/textUtils.js:18-28 | over any pieces the split can produce, the loop keeps its invariant: completed sentences end with a delimiter, and no non-space characters are lost |
| TextUtils.FinalShape | src/utils/textUtils.js:31-33 | adding the remainder keeps every element a trimmed non-empty sentence, all but the last ending with a delimiter |
| TextUtils.SentencesShape | src/utils/textUtils.js:18-35 | every output is trimmed, non-empty and, except possibly the last, ends with 。 or ？ with no delimiter inside; the output holds exactly the text's non-whitespace characters in order |
| TextUtils.NoDelimiterOneSentence | src/utils/textUtils.js:31-33 | a text without delimiters gives [trim(text)], or [] when it is blank |
| FileParser.AddNames | src/utils/fileParser.js:26 | adding the pieces one at a time leaves the set as the distinct names seen so far, in first-seen order |
| FileParser.GroupNames | src/utils/fileParser.js:11-27 | the map's keys are the distinct texts in first-appearance order, and each key maps to the distinct names of its rows in first-seen order |
| FileParser.AggregateDataByText | src/utils/fileParser.js:10-42 | the two loops return exactly the declarative aggregation |
| FileParser.CollectEntries | src/utils/fileParser.js:29-39 | every entry carries a key and its non-empty combined name, and a key gets an entry iff its combined name is not empty |
| FileParser.CollectOrder | src/utils/fileParser.js:30 | with distinct keys, the entries follow the key order |
| FileParser.AggregatedEntries | src/utils/fileParser.js:10-42 | the result has one entry per distinct text whose names are not all empty, in first-appearance order, named by its combined name, and no text twice |
| FileParser.CombinedNameSplits | src/utils/fileParser.js:25-33 | the combined name is empty iff no row of the text lists a name; otherwise splitting it on & gives exactly the distinct, trimmed, non-empty names in first-seen order |
| FileParser.TrimmedNonEmptyShape | src/utils/fileParser.js:25 | the name pieces are non-empty, trimmed and free of & |
| FileParser.SplitLines | src/utils/fileParser.js:118 | splitting on \r?\n gives at least one line |
| FileParser.Headers | src/utils/fileParser.js:124 | there is one header per tab-separated cell of the first line, that cell with surrounding whitespace trimmed |
| FileParser.ExtractRows | src/utils/fileParser.js:112-151 | the validation and row loop return exactly the declarative extraction, errors included |
| FileParser.ReadDataRows | src/utils/fileParser.js:132-147 | the loop over the data lines pushes exactly the valid rows, in order |
| FileParser.ParseTsvContent | src/utils/fileParser.js:112-154 | extraction errors are passed on; otherwise the result is the aggregation of the extracted rows |
| FileParser.ValidRowsShape | src/utils/fileParser.js:133-147 | each data line gives at most one row, and its name and text are trimmed and non-empty |
| FileParser.ExtractOutcomes | src/utils/fileParser.js:113-151 | blank input gives the empty-content error iff blank; fewer than 2 lines gives the missing-rows error; a missing column header gives its error; no valid line gives the no-data error; otherwise the rows are read at the first occurrence of each header, at least one row, all trimmed and non-empty |
| CorpusUtils.NameMatchFirst | src/utils/corpusUtils.js:9-10 | the first entry whose name equals the group's name is returned, whatever else matches |
| CorpusUtils.IdMatchSecond | src/utils/corpusUtils.js:13-20 | with no name match and a group Baize id, the first entry carrying that id, as its own Baize id or as a target's, is returned |
| CorpusUtils.TextMatchLast | src/utils/corpusUtils.js:24-30 | with neither match, the first entry with a non-empty text equal to the group's text (Baize text preferred) once all whitespace is removed is returned |
| CorpusUtils.NoMatchIff | src/utils/corpusUtils.js:7-31 | a match is always a list entry, and there is no match iff none of the three tiers finds one |
| CorpusUtils.NameOf | src/utils/corpusUtils.js:60 | an item's name, or its default 导入语料-{idx+1}, is never empty |
| CorpusUtils.Positions | src/utils/corpusUtils.js:45-47 | the positions of a content are valid item indices |
| CorpusUtils.KeysMember | src/utils/corpusUtils.js:46-50 | a content is a key iff it is non-empty and some item has it |
| CorpusUtils.GroupByContent | src/utils/corpusUtils.js:44-63 | the loop builds one group per key, in first-appearance order, and each group is the declarative group of its content |
| CorpusUtils.PositionsExactly | src/utils/corpusUtils.js:45-62 | a content's positions are exactly the items with that content, in increasing order |
| CorpusUtils.GroupMembers | src/utils/corpusUtils.js:49-62 | a group's members are exactly the items with its content in input order, its names are theirs with defaults, and its primary item is the first such item |
| CorpusUtils.CountStatuses | src/utils/corpusUtils.js:70-80 | the three counters are the declarative counts of '1', '2' and everything else, a missing status counting as '0' |
| CorpusUtils.CountAllIff | src/utils/corpusUtils.js:76-79 | the count of a status equals the total iff every item has that status |
| CorpusUtils.CountsAddUp | src/utils/corpusUtils.js:70-80 | verified + marked + unverified = total |
| CorpusUtils.StatusRollUp | src/utils/corpusUtils.js:82-97 | the status is '1' iff all items are verified, '2' iff all are marked, and '0' otherwise, and the counts add up to the total |
| CorpusUtils.ProcessCorpusData | src/utils/corpusUtils.js:38-116 | the loops return exactly the declarative entries, and non-array input gives [] |
| CorpusUtils.EntriesLength | src/utils/corpusUtils.js:65 | there is one entry per key |
| CorpusUtils.ProcessedEntries | src/utils/corpusUtils.js:44-65 | for an array, entry j is the entry of the j-th key (the j-th distinct non-empty content in first-appearance order) built from that content's group, and there is exactly one entry per key |
| CorpusUtils.EntryDescribes | src/utils/corpusUtils.js:65-112 | the entry of a group has the group's text, its names joined with & without de-duplication, one target per item in order, Baize data and uniqueId from the first item, and the rolled-up status with its statistics |
| CorpusUtils.KeysOrder | src/utils/corpusUtils.js:44-63 | the keys are the non-empty contents, each once, in order of first appearance |
| BaizeDataProcessor.ProcessScriptCorpusData | src/utils/baizeDataProcessor.js:8-63 | the loops return exactly the declarative script entries, and non-array input gives [] |
| BaizeDataProcessor.SameEntriesAsCorpus | src/utils/baizeDataProcessor.js:14-60 | the script entries are the corpus entries, in the same order and number, except that the status is the first item's (defaulting to '0') and there are no statistics |
| BaizeDataProcessor.UniformStatusAgrees | src/utils/baizeDataProcessor.js:44 | when all items of a content share one status, both processors report it |
| BaizeDataProcessor.PrimaryStatusStandsForAll | src/utils/baizeDataProcessor.js:44 | a verified first item makes the script entry verified even when another item is not, whereas the corpus roll-up is then not '1' |
| CorpusSelectionDialog.ShownIffAllFive | src/components/CorpusSelectionDialog.jsx:40-77 | an entry is shown iff it is in the list and passes the name, text, flow, type and status tests |
| CorpusSelectionDialog.FilteredKeepsOrder | src/components/CorpusSelectionDialog.jsx:40 | filtering distributes over concatenation, so the shown entries keep list order |
| CorpusSelectionDialog.InitialFiltersShowAll | src/components/CorpusSelectionDialog.jsx:19-23 | with the initial filters (empty texts, both menus on 全部) every entry is shown |
| CorpusSelectionDialog.TextMatchIff | src/components/CorpusSelectionDialog.jsx:42-48 | a non-empty text filter accepts a field iff the lower-cased filter occurs in the lower-cased field |
| CorpusSelectionDialog.PieceOfFieldMatches | src/components/CorpusSelectionDialog.jsx:42-48 | any piece of a field passes as that field's filter |
| CorpusSelectionDialog.TypeFilterCases | src/components/CorpusSelectionDialog.jsx:51-61 | 全部 accepts all types; 主流程 accepts exactly MASTER_, 知识库 exactly KNOWLEDGE_, 功能话术 exactly FUNC_ or PRE_; an unknown menu value accepts none; a missing type passes only 全部 |
| CorpusSelectionDialog.StatusFilterCases | src/components/CorpusSelectionDialog.jsx:64-74 | 全部 accepts all statuses; 未验听, 已验听 and 已标记 accept exactly '0', '1' and '2'; any other value accepts none |
| CorpusSelectionDialog.LabelSelects | src/components/CorpusSelectionDialog.jsx:98-105 | a status has a known label iff it is '0', '1' or '2'; that label is the one status menu entry that selects it; an entry labelled 未知 passes only 全部 |
| CorpusSelectionDialog.ToggleFlips | src/components/CorpusSelectionDialog.jsx:29-37 | toggling flips the membership of that id alone, and toggling twice restores the set |
| CorpusSelectionDialog.IdsOfMember | src/components/CorpusSelectionDialog.jsx:81 | an id is collected iff some shown entry carries it |
| CorpusSelectionDialog.ConfirmSelected | src/components/CorpusSelectionDialog.jsx:89-96 | confirm refuses iff no list entry is selected; otherwise it hands on exactly the list entries whose id is selected |
| CorpusSelectionDialog.ConfirmKeepsOrder | src/components/CorpusSelectionDialog.jsx:90 | the selected entries keep list order |
| CorpusSelectionDialog.CorpusSelection.constructor | src/components/CorpusSelectionDialog.jsx:17-26 | the dialog mounts with empty text filters, both menus on 全部, and nothing selected |
| CorpusSelectionDialog.CorpusSelection.SetFilters | src/components/CorpusSelectionDialog.jsx:19-23 | a filter edit changes the filters and keeps the selection |
| CorpusSelectionDialog.CorpusSelection.Toggle | src/components/CorpusSelectionDialog.jsx:29-37 | the selection becomes the toggled set; the filters are kept |
| CorpusSelectionDialog.CorpusSelection.SelectCurrent | src/components/CorpusSelectionDialog.jsx:79-83 | the selection becomes the old selection ∪ the ids of the shown entries, so nothing is removed |
| CorpusSelectionDialog.CorpusSelection.ClearAll | src/components/CorpusSelectionDialog.jsx:85-87 | the selection becomes empty |
| CorpusSelectionDialog.CorpusSelection.Confirm | src/components/CorpusSelectionDialog.jsx:89-96 | confirm returns the declarative confirm outcome and changes nothing |
| ScriptSelectionDialog.DisplayedMember | src/components/ScriptSelectionDialog.jsx:84-86 | a script is listed iff it is in the list and its lower-cased name contains the lower-cased search term |
| ScriptSelectionDialog.EmptyTermListsAll | src/components/ScriptSelectionDialog.jsx:86 | an empty search term lists every script |
| ScriptSelectionDialog.DisplayedIsPermutation | src/components/ScriptSelectionDialog.jsx:85-94 | the displayed list is a permutation of the filtered list |
| ScriptSelectionDialog.SelectedFirst | src/components/ScriptSelectionDialog.jsx:87-94 | every script with the selected id comes before every other, and the other scripts keep their filtered order |
| ScriptSelectionDialog.NoSelectionKeepsOrder | src/components/ScriptSelectionDialog.jsx:89-93 | without a selection the list is the filtered list unchanged |
| ScriptSelectionDialog.EmptyStateIff | src/components/ScriptSelectionDialog.jsx:84-115 | the empty-state message shows iff no script matches, and then nothing is listed |
| TtsAudio.SourceChannel | src/pages/TtsEditor.jsx:82-84 | the channel read from a buffer has that buffer's length |
| TtsAudio.MergedChannel | src/pages/TtsEditor.jsx:78-89 | a merged channel is as long as all present buffers together |
| TtsAudio.TotalLengthConcat | src/pages/TtsEditor.jsx:66-69 | the total length adds up over concatenated slot lists |
| TtsAudio.MergedChannelConcat | src/pages/TtsEditor.jsx:78-89 | merging concatenated slot lists concatenates their merged channels |
| TtsAudio.PlaceStep | src/pages/TtsEditor.jsx:85-87 | writing one buffer's channel at the running offset extends the merged prefix by exactly that channel |
| TtsAudio.SumLengths | src/pages/TtsEditor.jsx:66-69 | the first loop sums the lengths of the non-null buffers |
| TtsAudio.BufferToWaveHeader | src/pages/TtsEditor.jsx:21-46 | the header is the 44-byte WAVE header for the first len frames, and the file size is 44 + len·channels·2 |
| TtsAudio.PlaceBuffer | src/pages/TtsEditor.jsx:80-86 | every merged channel gets the buffer's channel of that number, or else its channel 0, written at the offset |
| TtsAudio.MergeBuffers | src/pages/TtsEditor.jsx:65-92 | the loops build exactly the declarative merge, and its header has the first slot's channels and rate (1 and 44100 when that slot is empty) and the summed length |
| TtsAudio.MergedPlacement | src/pages/TtsEditor.jsx:66-89 | the merged buffer is well formed, as long as the present buffers together, and each present buffer occupies the samples right after those before it, channel c or else channel 0 |
| TtsAudio.EmptySlotSkipped | src/pages/TtsEditor.jsx:68-79 | a slot that failed to decode contributes nothing |
| WavHeader.Ascii | src/pages/TtsEditor.jsx:34-37 | the bytes of a four-character code are its ASCII codes, one per character |
| WavHeader.LE16 | src/pages/TtsEditor.jsx:31 | setUint16 stores two bytes that read back little-endian as the value mod 2^16 |
| WavHeader.LE32 | src/pages/TtsEditor.jsx:32 | setUint32 stores four bytes that read back little-endian as the value mod 2^32 |
| WavHeader.SetUint16 | src/pages/TtsEditor.jsx:31 | two bytes are written at the offset, the bytes before it are kept, and the offset advances by 2 |
| WavHeader.SetUint32 | src/pages/TtsEditor.jsx:32 | four bytes are written at the offset, the bytes before it are kept, and the offset advances by 4 |
| WavHeader.RiffChunkHeader | src/pages/TtsEditor.jsx:34-36 | the RIFF chunk header is 12 bytes |
| WavHeader.FmtFormat | src/pages/TtsEditor.jsx:37-40 | the first half of the fmt chunk is 12 bytes |
| WavHeader.FmtRates | src/pages/TtsEditor.jsx:41-44 | the second half of the fmt chunk is 12 bytes |
| WavHeader.FmtChunk | src/pages/TtsEditor.jsx:37-44 | the fmt chunk is 24 bytes |
| WavHeader.DataChunkHeader | src/pages/TtsEditor.jsx:45-46 | the data chunk header is 8 bytes |
| WavHeader.HeaderBytes | src/pages/TtsEditor.jsx:21-46 | the header is 44 bytes |
| WavHeader.WriteRiffChunkHeader | src/pages/TtsEditor.jsx:34-36 | the three RIFF fields written from the offset are exactly the RIFF chunk header |
| WavHeader.WriteFmtFormat | src/pages/TtsEditor.jsx:37-40 | the fmt id, size, format and channel fields written are exactly the first half of the fmt chunk |
| WavHeader.WriteFmtRates | src/pages/TtsEditor.jsx:41-44 | the rate, byte rate, block align and bit-depth fields written are exactly the second half of the fmt chunk |
| WavHeader.WriteFmtChunk | src/pages/TtsEditor.jsx:37-44 | the fmt fields written from the offset are exactly the fmt chunk |
| WavHeader.WriteDataChunkHeader | src/pages/TtsEditor.jsx:45-46 | the data id and length written are exactly the data chunk header |
| WavHeader.WriteHeader | src/pages/TtsEditor.jsx:21-46 | writing the fields in order gives exactly the header bytes, and the file size is 44 + frames·channels·2 |
| WavHeader.FourCharacterCode | src/pages/TtsEditor.jsx:34-45 | a four-character code written as a 32-bit little-endian integer is its ASCII text |
| WavHeader.RiffLayout | src/pages/TtsEditor.jsx:34-36 | the RIFF chunk header holds "RIFF", then data length + 36 mod 2^32, then "WAVE" |
| WavHeader.FmtLayout | src/pages/TtsEditor.jsx:37-44 | the fmt chunk holds "fmt ", 16, PCM format 1, the channel count, the rate, rate·2·channels, channels·2, and 16 bits, each mod its width |
| WavHeader.DataLayout | src/pages/TtsEditor.jsx:45-46 | the data chunk header holds "data" and the data length mod 2^32 |
| WavHeader.HeaderRiffFields | src/pages/TtsEditor.jsx:34-36 | header bytes 0-11 are "RIFF", frames·channels·2 + 36, "WAVE" |
| WavHeader.HeaderFmtFields | src/pages/TtsEditor.jsx:37-44 | header bytes 12-35 are the fmt fields at their offsets |
| WavHeader.HeaderDataFields | src/pages/TtsEditor.jsx:45-46 | header bytes 36-43 are "data" and frames·channels·2 |
| WavHeader.HeaderLayout | src/pages/TtsEditor.jsx:21-46 | the header is 44 bytes, and each field sits at the offset the WAVE form gives it and reads back as the value written, mod 2^16 or 2^32 |
| TtsEditor.Numbered | src/pages/TtsEditor.jsx:455 | there is one item per line |
| TtsEditor.TextLinesNotEmpty | src/pages/TtsEditor.jsx:445-454 | a text that is not blank has a line with content, so the no-valid-line error cannot follow a non-blank text |
| TtsEditor.SynthesisDataOutcomes | src/pages/TtsEditor.jsx:437-467 | there is no data iff no voice is chosen; the text tab fails iff the text is blank, and otherwise numbers its non-blank lines 1..n in order; the file tab fails without imported data or with none, and otherwise takes the rows as they are; accepted data is never empty |
| TtsEditor.SynthesizedGroups | src/pages/TtsEditor.jsx:487-522 | there is one group per item |
| TtsEditor.SegmentCountMatches | src/pages/TtsEditor.jsx:477-519 | the segments made add up to the totalSegments counted beforehand |
| TtsEditor.SynthesizedShape | src/pages/TtsEditor.jsx:476-522 | one group per item in order, named and worded as the item; one segment per sentence (or one for the whole text without splitting), with audio and URL exactly when the call succeeded and the error message otherwise; the progress total is the number of segments |
| TtsEditor.TextsOf | src/pages/TtsEditor.jsx:479-489 | a group's texts are its sentences when splitting, else the whole text |
| TtsEditor.SynthesizeGroup | src/pages/TtsEditor.jsx:488-520 | the inner loop pushes exactly one segment record per text, in order |
| TtsEditor.CountSegments | src/pages/TtsEditor.jsx:477-481 | the counting loop gives the declarative total |
| TtsEditor.SynthesizeAll | src/pages/TtsEditor.jsx:484-522 | the outer loop produces exactly the declarative groups |
| TtsEditor.FilledAt | src/pages/TtsEditor.jsx:575-582 | after n groups, a group below n is cached iff it was cached before or has a segment without error, and a new entry is the merge of those segments |
| TtsEditor.FilledShape | src/pages/TtsEditor.jsx:575-582 | a cached group keeps its audio; an uncached group gets the merge of its error-free segments iff it has one; a coherent cache stays coherent |
| TtsEditor.FillStep | src/pages/TtsEditor.jsx:576-581 | one turn of the download loop settles that group's cache entry for good |
| TtsEditor.FileNameInjective | src/pages/TtsEditor.jsx:588 | distinct names give distinct file names |
| TtsEditor.AddFilesAt | src/pages/TtsEditor.jsx:587-589 | after adding, a file exists iff it existed or is named after one of the names; a named file holds the blob; other files are kept |
| TtsEditor.ZipKeys | src/pages/TtsEditor.jsx:584-590 | a file is in the archive iff it is {name}.wav for an &-separated part of the index of a group that has merged audio |
| TtsEditor.ZipLastWins | src/pages/TtsEditor.jsx:584-590 | the file of a name holds the merged audio of the last group with audio that lists that name |
| TtsEditor.Pack | src/pages/TtsEditor.jsx:575-591 | the loop fills the cache exactly as the declarative fill and writes exactly the declarative archive |
| TtsEditor.AddNamedFiles | src/pages/TtsEditor.jsx:587-589 | the inner loop adds one file per name, a repeated name replacing the earlier file |
| TtsEditor.ClearedGroup | src/pages/TtsEditor.jsx:640-644 | clearing a group keeps its segment count |
| TtsEditor.Cleared | src/pages/TtsEditor.jsx:639-645 | clearing keeps the group count |
| TtsEditor.WithSegment | src/pages/TtsEditor.jsx:647-655 | replacing a segment keeps the group count |
| TtsEditor.UpdatedShape | src/pages/TtsEditor.jsx:627-664 | an out-of-range update changes nothing; otherwise the segment takes the fields the update names and keeps the rest; with recent: true it is the only recent segment on the page and every other segment differs at most in that flag; without it every other segment is untouched |
| TtsEditor.UpdateKeepsMergeInput | src/pages/TtsEditor.jsx:658-660 | an update naming no URL, audio or error leaves every group's merge input unchanged, so keeping the cache is sound |
| TtsEditor.SameAudioSameInput | src/pages/TtsEditor.jsx:577 | segments with the same audio and errors give the same merge input |
| TtsEditor.SameAudioFilter | src/pages/TtsEditor.jsx:577 | segments with the same audio and errors keep the same error-free audio |
| TtsEditor.RemovedAt | src/pages/TtsEditor.jsx:674-698 | a splice of one element shortens the list by one |
| TtsEditor.CacheAfterDeleteAt | src/pages/TtsEditor.jsx:695-698 | after the corrected delete, keys below the group are kept and key k ≥ the group holds the old entry k + 1 |
| TtsEditor.CacheAfterDeleteCoherent | src/pages/TtsEditor.jsx:695-698 | moving the later cache entries down one key keeps every cached file the merge of its own group |
| TtsEditor.DeleteGroupCacheMisaligned | src/pages/TtsEditor.jsx:695-698 | deleting the first of three cached groups as written leaves b's audio under key 1, so c.wav packs b's audio; with the keys moved down c.wav packs c's audio |
| TtsEditor.ClearRecent | src/pages/TtsEditor.jsx:639-645 | the first pass clears the recent flag of every segment of every group |
| TtsEditor.ClearGroupRecent | src/pages/TtsEditor.jsx:640-644 | every segment of the group has recent false and is otherwise unchanged |
| TtsEditor.SegmentUrls | src/pages/TtsEditor.jsx:692-694 | the URLs revoked are those of the segments that have one, in order |
| TtsEditor.Workspace.constructor | src/pages/TtsEditor.jsx:473-474 | the workspace starts with no groups, an empty cache, no imported data and nothing revoked |
| TtsEditor.Workspace.PasteConfirm | src/pages/TtsEditor.jsx:379-433 | valid pasted rows replace the imported data one to one, without aggregation, and their count is reported; the rejections are those of parseTSVContent and change nothing |
| TtsEditor.Workspace.Synthesize | src/pages/TtsEditor.jsx:436-532 | on an error nothing changes; otherwise the groups become the synthesised ones, the cache is emptied and the total segment count is returned |
| TtsEditor.Workspace.UpdateSegment | src/pages/TtsEditor.jsx:627-664 | the groups become the declarative update; the old URL is revoked when the update names a different one; the group's merged audio is dropped iff the update names a URL |
| TtsEditor.Workspace.DeleteSegment | src/pages/TtsEditor.jsx:667-685 | an out-of-range delete changes nothing; otherwise its URL is revoked, exactly that segment is removed and only the group's own merged audio is dropped; a group left empty is removed while the later cache entries keep their old keys |
| TtsEditor.Workspace.DeleteGroup | src/pages/TtsEditor.jsx:688-703 | an out-of-range delete changes nothing; otherwise all URLs of the group are revoked, exactly that group is removed, and only its own cache entry is dropped, the later entries keeping their old keys |
| TtsEditor.DeleteThenDownloadMisfiles | src/pages/TtsEditor.jsx:688-703 | on the workspace, deleting the first of three cached groups a, b, c and then downloading packs b's audio as c.wav |
| TtsEditor.Workspace.DownloadAll | src/pages/TtsEditor.jsx:563-601 | with no groups it fails and changes nothing; otherwise the cache is filled and the archive holds one {name}.wav per &-separated part of the index of each group with audio |
| SingleUpload.UploadOne | src/hooks/useSingleUpload.js:110-129 | one target succeeds on code "2000" unless the text sync it triggers throws; code "666" or a message containing 锁定 is a lock; no reply, another code or a thrown error is a failure, a lock when its message contains 锁定; the sync happens exactly after a "2000" reply when it is due |
| SingleUpload.UploadTargets | src/hooks/useSingleUpload.js:99-130 | the loop counts exactly the declarative tally and makes one upload per target, in order, to the target's id under its contentName (else the group's name) with .wav |
| SingleUpload.TallyCounts | src/hooks/useSingleUpload.js:100-130 | every target counts once, as a success or a failure; no failure iff every target succeeded |
| SingleUpload.TallyLocked | src/hooks/useSingleUpload.js:102-128 | a lock is reported iff some target was locked |
| SingleUpload.TallySynced | src/hooks/useSingleUpload.js:113-117 | the text is synchronised after exactly the uploads answered "2000", and never when the text is unchanged or syncing is off |
| SingleUpload.MarkedIffAllSucceeded | src/hooks/useSingleUpload.js:132-144 | the group is marked uploaded iff it had targets and every one succeeded |
| SingleUpload.UploadState.constructor | src/hooks/useSingleUpload.js:34-36 | nothing uploading, no group waiting, no script confirmed |
| SingleUpload.SingleUploadRun | src/hooks/useSingleUpload.js:39-179 | a run of the upload changes no group but the one uploaded, and that one exactly when at least one target was uploaded and none failed, when it is marked uploaded; without a finished run nothing is uploaded, with one there is one upload per target |
| SingleUpload.UploadState.ExecuteSingleUpload | src/hooks/useSingleUpload.js:39-179 | every exit takes the group out of the uploading set; a missing group, no matching entry, no audio (neither cached nor mergeable), a failed lock or a missing target end the run without changing the groups; otherwise every target is uploaded and the group is marked uploaded with the matched entry's Baize references iff at least one succeeded and none failed; the outcome, the new groups and the uploads are exactly those of the declarative run |
| SingleUpload.UploadState.HandleSingleGroupUpload | src/hooks/useSingleUpload.js:182-215 | without a token only the login dialog opens; otherwise the group joins the uploading set, and without a confirmed target script it is remembered and the dialog opens (a failing dialog takes it out again), while with one it is uploaded at once, its outcome and new groups being those of the declarative run |
| SingleUpload.UploadState.HandleSingleUploadConfirm | src/hooks/useSingleUpload.js:218-225 | the script counts as confirmed; a waiting group is uploaded against the script, with the outcome and new groups of the declarative run, and no longer waits; with none waiting nothing else happens |
| NetworkUtils.FailureOf | src/utils/networkUtils.js:14-21 | a network error is caught as it is; a non-ok response fails with the body's error when it is non-empty, with the status message exactly when the JSON body has no error, and with the parse error when the body is not JSON |
| NetworkUtils.Delays | src/utils/networkUtils.js:22-25 | there is one pause per retry taken |
| NetworkUtils.DelaysDouble | src/utils/networkUtils.js:22-25 | the first pause is retryDelay and each pause doubles the one before |
| NetworkUtils.FirstSuccess | src/utils/networkUtils.js:12-19 | none iff no attempt below n succeeds; otherwise the least attempt that succeeds |
| NetworkUtils.AttemptBounds | src/utils/networkUtils.js:12-25 | at most maxRetries fetches are made, and no pause follows the last one |
| NetworkUtils.ReturnsFirstSuccess | src/utils/networkUtils.js:12-19 | a response is returned iff some attempt succeeds, and it is the first successful one, after which nothing more is fetched |
| NetworkUtils.ThrowsLastError | src/utils/networkUtils.js:20-28 | when every attempt fails the last attempt's error is thrown after maxRetries fetches and one pause fewer; with no attempts undefined is thrown |
| NetworkUtils.FetchWithRetry | src/utils/networkUtils.js:10-29 | the retry loop gives exactly the declarative outcome: response, error, attempts and pauses |
| NetworkUtils.DefaultSchedule | src/utils/networkUtils.js:10 | with the default 3 retries and 1000 ms delay, a fetch that keeps failing is tried three times with pauses of 1000 and 2000 ms and the third error is thrown |
| WorkspaceStorage.SanitizeStripsOnlyUrl | src/utils/workspaceStorage.js:108-128 | data without groups is kept as it is; otherwise the same top-level fields and groups in order with their own fields, and every segment loses its url and keeps every other field |
| WorkspaceStorage.RehydrateSetsUrl | src/utils/workspaceStorage.js:130-146 | data without groups is kept as it is; otherwise every segment gets a url, an object URL of its blob iff the blob is truthy and null otherwise, and nothing else changes |
| WorkspaceStorage.StripThenRehydrateSegment | src/utils/workspaceStorage.js:119-138 | a segment stripped of its url rehydrates to what the original would |
| WorkspaceStorage.StripThenRehydrateGroup | src/utils/workspaceStorage.js:115-140 | a sanitised group rehydrates to what the original would |
| WorkspaceStorage.SaveLoadRoundTrip | src/utils/workspaceStorage.js:108-146 | rehydrating sanitised data gives exactly what rehydrating the original gives, so saving loses nothing loading needs |
| WorkspaceStorage.PayloadCount | src/utils/workspaceStorage.js:46-50 | the payload carries the time and the number of groups (0 without groups) over any fields of those names, and the sanitised groups |
| WorkspaceStorage.Store.constructor | src/utils/workspaceStorage.js:1-10 | the store holds what it is given |
| WorkspaceStorage.Store.SaveWorkspace | src/utils/workspaceStorage.js:40-64 | the payload replaces whatever was stored under 'current'; nothing else changes |
| WorkspaceStorage.Store.LoadWorkspace | src/utils/workspaceStorage.js:66-88 | the stored value rehydrated, or null when nothing is stored |
| WorkspaceStorage.Store.ClearWorkspace | src/utils/workspaceStorage.js:90-105 | exactly the 'current' entry is deleted |
| WorkspaceStorage.SaveLoadClear | src/utils/workspaceStorage.js:40-105 | a save then a load gives the groups with their urls recreated; a clear then a load gives null |
| BrowserStorage.LocalStorage.GetItem | src/hooks/useBaizeAuth.js:16-21 | the stored string or null; an error when storage is inaccessible |
| BrowserStorage.LocalStorage.SetItem | src/hooks/useBaizeAuth.js:50-51 | the key is overwritten; an error, changing nothing, when storage is inaccessible |
| BrowserStorage.LocalStorage.RemoveItem | src/hooks/useBaizeAuth.js:66-67 | the key is deleted; an error, changing nothing, when storage is inaccessible |
| UpdateNotification.InitiallyOpen | src/hooks/useUpdateNotification.js:5-14 | the dialog starts closed iff the stored acknowledged version is read and equals the current one |
| UpdateNotification.Notification.constructor | src/hooks/useUpdateNotification.js:5-14 | open iff storage is inaccessible, nothing is acknowledged or another version is |
| UpdateNotification.Notification.HandleClose | src/hooks/useUpdateNotification.js:16-25 | the dialog closes; with "do not show again" the current version is stored, a write error being swallowed; otherwise storage is untouched |
| UpdateNotification.CloseThenRestart | src/hooks/useUpdateNotification.js:5-25 | after "do not show again" on working storage the next start stays closed; after a plain close it opens as it would have before |
| BaizeAuth.ParseEscaped | src/hooks/useBaizeAuth.js:17-50 | parsing an escaped string literal gives the string back and leaves the rest |
| BaizeAuth.UserRoundTrip | src/hooks/useBaizeAuth.js:17-50 | a stored user record parses back to the same user |
| BaizeAuth.InitialUserReadsBack | src/hooks/useBaizeAuth.js:15-18 | nothing stored, or the empty string, gives no user; a stored login record gives its user |
| BaizeAuth.Auth.constructor | src/hooks/useBaizeAuth.js:15-26 | user and token from storage, dialog closed, empty form |
| BaizeAuth.Auth.HandleLoginOpen | src/hooks/useBaizeAuth.js:28-30 | the dialog opens and nothing else changes |
| BaizeAuth.Auth.HandleLoginClose | src/hooks/useBaizeAuth.js:32-34 | the dialog closes and nothing else changes |
| BaizeAuth.Auth.HandleLoginSubmit | src/hooks/useBaizeAuth.js:36-60 | the service is called iff username and password are both given; a rejection changes only the message; a success sets the user (the reply's account, else the username) and the token, stores both and closes the dialog, and when storing throws the state is set but the dialog stays open with a failure message |
| BaizeAuth.Auth.HandleLogout | src/hooks/useBaizeAuth.js:62-71 | user and token become null; both keys are removed and the logout message shown, unless storage throws first |
| BaizeAuth.LoginThenRestart | src/hooks/useBaizeAuth.js:15-60 | after a successful login the next start reads back the same user and token text |
| LogServer.BuildListQuery | log-server/server.js:46-68 | the query and parameters built step by step are the declarative query and parameter list |
| LogServer.ConditionsAligned | log-server/server.js:53-61 | one parameter per condition, each bound to its own filter's value; a filter has a condition iff it is given, non-empty and not 'all'; action type comes before status |
| LogServer.WhereIffConditions | log-server/server.js:49-67 | with no filter there is no WHERE; with one or two the conditions follow WHERE, joined by AND; the ordering and limit always end the query |
| LogServer.JoinedPlaceholders | log-server/server.js:63-67 | texts without ? joined by ? hold one ? fewer than there are texts |
| LogServer.QuerySegmentsJoin | log-server/server.js:49-67 | the query is its placeholder-free texts joined by ? |
| LogServer.PlaceholdersMatchParams | log-server/server.js:47-68 | the query has exactly as many ? as there are parameters, and the last parameter is the limit, 100 unless given |
| LogServer.PlaceholderCount | log-server/server.js:47-68 | the number of ? in the list query equals the number of parameters bound to it |
| LogServer.LogTable.constructor | log-server/server.js:25-41 | the table starts empty |
| LogServer.LogTable.HandlePost | log-server/server.js:82-108 | without a truthy action_type the request is refused with 'action_type is required' and nothing is inserted; otherwise exactly one row is appended and its id returned |
| LogServer.InsertDefaults | log-server/server.js:89-96 | the row has the given action type, the username Anonymous, the status info and an empty user agent unless truthy values are given, and an object's details as its JSON text |

## Left out

- **Floating point.** Sample conversion and clamping to 16-bit PCM (src/pages/TtsEditor.jsx:52-60 and src/components/WaveformEditor.jsx:52-66) are not modelled: samples are opaque values of a type parameter. Time-to-sample conversion (`Math.floor(time * sampleRate)`) is left to the caller, so positions enter as sample indices. The volume gain is a parameter, and scaling is a given function on samples.
- WaveformEditor.Editor.Copy: requires the selection to lie inside the buffer, as the selection the region plugin reports always does; a selection past the end is not modelled.
- WaveformEditor.Editor.Cut: requires the selection to lie inside the buffer, for the same reason as Copy.
- WaveformEditor.Editor.InsertSilence: takes the silence length as a number of samples rather than seconds, for the reason given under floating point.
- **Decoding and merging.** `decodeAudioData` is an input: the decoded buffer or its failure. `mergeAudioSegments` (src/pages/TtsEditor.jsx:535-560) is the `merge` parameter of the workspace and of the upload hook; its placement of buffers is modelled separately in `TtsAudio`. `createBuffer` rejecting a length of 0 is not modelled.
- **External services.** The text-to-speech service, object URLs and the Baize API are inputs. Their asynchrony, React's batching of state updates, the messages shown to the user, the progress counter and the log calls are not modelled.
- **Spreadsheet export.** `handleExportExcel` (src/pages/TtsEditor.jsx:604-624) is not modelled. The spreadsheet library is not part of this model, and neither are the generation of the JSZip archive and `saveAs`; the archive is modelled as a map from file names to blobs.
- **Strings.** `toLowerCase` covers ASCII letters only. `trim` uses the ECMAScript whitespace and line-terminator set.
- ScriptSelectionDialog.DisplayedIsPermutation: the comparator of the script list's sort is modelled as a stable partition, selected id first. With several scripts sharing the selected id, the JavaScript comparator is inconsistent and their order is implementation-defined.
- **IndexedDB.** Opening the database, the upgrade callback and request errors are not modelled (src/utils/workspaceStorage.js:12-38); the object store is a map held by a class.
- **Update notice.** The `updateInfo` constants file is not part of this model: the current version is a parameter.
- BaizeAuth.Auth.constructor: requires accessible storage, because the source reads `localStorage` without a `try` at start-up, where an exception would stop the component.
- **JSON parsing.** `DecodeUser` reads only the layout `EncodeUser` writes. Any other stored text gives `None`, valid JSON included (other spacing, extra fields, a bare string or number, escapes such as `\n` or `\u0041` in the account), where `JSON.parse` would return that value or throw.
- **JSON escaping.** Escaping in the stored user record covers only quote and backslash, not control characters.
- **Log server.** `JSON.stringify` of the details is a parameter. SQLite execution, the database timestamp, the 500 error paths and the rows returned by GET are not modelled; the GET route is modelled as the query text and its parameters.
- WaveformEditor.Editor.Paste: the region highlighting the pasted range, which the source adds 100 ms later once the waveform has reloaded, is taken to exist as soon as the paste returns. Its length is the clipboard's length in samples, which matches the source's seconds only when the clipboard has the buffer's sample rate. Starting playback of that region when looping is on is not modelled.
- NetworkUtils.FetchWithRetry: the pauses between attempts are recorded as a list of delays rather than slept.

## Findings

| source | as written | input that shows it | evidently intended | confidence | as-written member | corrected member |
|---|---|---|---|---|---|---|
| src/pages/TtsEditor.jsx:695-698 | deleting a group deletes its merged-audio cache entry, but the entries of the later groups keep their old keys while the groups move down one position | three cached groups a, b, c; delete group 0; download all: c.wav holds the audio of b | the cache entries after the deleted group move down one key with their groups | not executed | TtsEditor.DeleteGroupCacheMisaligned | TtsEditor.CacheAfterDeleteCoherent |
