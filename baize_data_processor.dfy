/** src/utils/baizeDataProcessor.js: processScriptCorpusData merges the
    items of a Baize script that share a content into one entry, as
    processCorpusData does, but an entry takes the status of its first
    item and carries no statistics. */
module BaizeDataProcessor {
  import opened Common
  import opened EditorData
  import opened CorpusUtils

  /** The entry of a group: audioStatus is primary.audioStatus || '0'. */
  function ScriptEntryOf(g: Group): CorpusEntry {
    EntryOf(g, StatusOf(g.primary), None)
  }

  /** What processScriptCorpusData returns; None stands for an input that
      is not an array. */
  function ScriptCorpus(corpusData: Option<seq<RawItem>>): seq<CorpusEntry> {
    if corpusData.None? then [] else Entries(corpusData.value, Keys(corpusData.value), ScriptEntryOf)
  }

  method ProcessScriptCorpusData(corpusData: Option<seq<RawItem>>) returns (preparedData: seq<CorpusEntry>)
    ensures preparedData == ScriptCorpus(corpusData)
  {
    if corpusData.None? {
      return [];
    }
    var items := corpusData.value;
    var keys, groups := GroupByContent(items);
    preparedData := [];
    var j := 0;
    while j < |keys|
      invariant 0 <= j <= |keys|
      invariant preparedData == Entries(items, keys[..j], ScriptEntryOf)
    {
      EntriesSnoc(items, keys, ScriptEntryOf, j);
      var entry := groups[keys[j]];
      preparedData := preparedData + [EntryOf(entry, StatusOf(entry.primary), None)];
      j := j + 1;
    }
    assert keys[..j] == keys;
  }

  /** The two processors give the same entries in the same order, and
      differ only in the status: here the first item's, there the roll-up
      of all items with its statistics. */
  lemma SameEntriesAsCorpus(corpusData: Option<seq<RawItem>>)
    ensures |ScriptCorpus(corpusData)| == |ProcessedCorpus(corpusData)|
    ensures forall j | 0 <= j < |ScriptCorpus(corpusData)| ::
      ScriptCorpus(corpusData)[j] == ProcessedCorpus(corpusData)[j].(audioStatus := ScriptCorpus(corpusData)[j].audioStatus, statusStats := None)
    ensures corpusData.Some? ==> |ScriptCorpus(corpusData)| == |Keys(corpusData.value)|
    ensures corpusData.Some? ==> forall j | 0 <= j < |Keys(corpusData.value)| ::
      Positions(corpusData.value, Keys(corpusData.value)[j]) != []
      && ScriptCorpus(corpusData)[j].audioStatus == StatusOf(GroupOf(corpusData.value, Keys(corpusData.value)[j]).primary)
  {
    if corpusData.Some? {
      var items := corpusData.value;
      KeysPresent(items);
      EntriesLength(items, Keys(items), ScriptEntryOf);
      EntriesLength(items, Keys(items), CorpusEntryOf);
      forall j | 0 <= j < |Keys(items)|
        ensures Positions(items, Keys(items)[j]) != []
        ensures ScriptCorpus(corpusData)[j] == ProcessedCorpus(corpusData)[j].(audioStatus := ScriptCorpus(corpusData)[j].audioStatus, statusStats := None)
        ensures ScriptCorpus(corpusData)[j].audioStatus == StatusOf(GroupOf(items, Keys(items)[j]).primary)
      {
        EntriesAt(items, Keys(items), ScriptEntryOf, j);
        EntriesAt(items, Keys(items), CorpusEntryOf, j);
      }
    }
  }

  /** When all items of a content share one of the statuses '0', '1' or
      '2', both processors give it that status. */
  lemma UniformStatusAgrees(g: Group, s: string)
    requires g.members != [] && g.primary == g.members[0]
    requires s == "0" || s == "1" || s == "2"
    requires forall i | 0 <= i < |g.members| :: StatusOf(g.members[i]) == s
    ensures ScriptEntryOf(g).audioStatus == CorpusEntryOf(g).audioStatus == s
  {
    StatusRollUp(g.members);
  }

  /** A group whose first item is verified but another is not shows
      verified here and not there: the first item's status stands for all. */
  lemma PrimaryStatusStandsForAll(g: Group, i: nat)
    requires g.members != [] && g.primary == g.members[0]
    requires StatusOf(g.primary) == "1"
    requires i < |g.members| && StatusOf(g.members[i]) != "1"
    ensures ScriptEntryOf(g).audioStatus == "1"
    ensures CorpusEntryOf(g).audioStatus != "1"
  {
    StatusRollUp(g.members);
  }
}
