/** src/utils/corpusUtils.js: findMatchedCorpus looks up the corpus entry
    an audio group is uploaded to, by name, then by Baize id, then by text
    with whitespace removed; processCorpusData merges the items of the
    Baize service that share a content into one corpus entry whose name
    joins their names with '&' and whose status rolls up theirs. The
    grouping by content is shared with src/utils/baizeDataProcessor.js. */
module CorpusUtils {
  import opened Common
  import opened EditorData

  // ---------------------------------------------------------------------------
  // findMatchedCorpus
  // ---------------------------------------------------------------------------

  /** The Baize id of a group (group.baizeData?.id), "" when it has none. */
  function GroupId(group: AudioGroup): string {
    if group.baizeData.Some? then group.baizeData.value.id else ""
  }

  /** The text a group is matched by: its Baize text, else its own. */
  function TextToMatch(group: AudioGroup): string {
    if group.baizeData.Some? && group.baizeData.value.text != "" then group.baizeData.value.text else group.text
  }

  predicate SomeTargetHasId(targets: seq<BaizeRef>, id: string) {
    exists k | 0 <= k < |targets| :: targets[k].id == id
  }

  predicate NameMatches(group: AudioGroup, c: CorpusEntry) {
    c.index == group.index
  }

  predicate IdMatches(id: string, c: CorpusEntry) {
    (c.baizeData.Some? && c.baizeData.value.id == id)
    || (c.baizeTargets.Some? && SomeTargetHasId(c.baizeTargets.value, id))
  }

  predicate TextMatches(source: string, c: CorpusEntry) {
    c.text != "" && RemoveSpaces(c.text) == RemoveSpaces(source)
  }

  function FindMatchedCorpus(group: AudioGroup, corpusList: seq<CorpusEntry>): Option<CorpusEntry> {
    var byName := FindFirst(corpusList, c => NameMatches(group, c));
    if byName.Some? then byName
    else
      var byId := if GroupId(group) != "" then FindFirst(corpusList, c => IdMatches(GroupId(group), c)) else None;
      if byId.Some? then byId
      else if TextToMatch(group) != "" then FindFirst(corpusList, c => TextMatches(TextToMatch(group), c))
      else None
  }

  /** Tier one: the first entry with the group's name wins, whatever else
      matches. */
  lemma NameMatchFirst(group: AudioGroup, corpusList: seq<CorpusEntry>, i: nat)
    requires i < |corpusList| && NameMatches(group, corpusList[i])
    requires forall j | 0 <= j < i :: !NameMatches(group, corpusList[j])
    ensures FindMatchedCorpus(group, corpusList) == Some(corpusList[i])
  {
    FindFirstAt(corpusList, c => NameMatches(group, c), i);
  }

  /** Tier two: with no entry of that name and a group with a Baize id,
      the first entry carrying that id, as its own or one of its targets',
      wins. */
  lemma IdMatchSecond(group: AudioGroup, corpusList: seq<CorpusEntry>, i: nat)
    requires forall j | 0 <= j < |corpusList| :: !NameMatches(group, corpusList[j])
    requires GroupId(group) != ""
    requires i < |corpusList| && IdMatches(GroupId(group), corpusList[i])
    requires forall j | 0 <= j < i :: !IdMatches(GroupId(group), corpusList[j])
    ensures FindMatchedCorpus(group, corpusList) == Some(corpusList[i])
  {
    FindFirstAt(corpusList, c => IdMatches(GroupId(group), c), i);
  }

  /** Tier three: with neither, the first entry whose text equals the
      group's text once all whitespace is removed wins. */
  lemma TextMatchLast(group: AudioGroup, corpusList: seq<CorpusEntry>, i: nat)
    requires forall j | 0 <= j < |corpusList| :: !NameMatches(group, corpusList[j])
    requires GroupId(group) == "" || forall j | 0 <= j < |corpusList| :: !IdMatches(GroupId(group), corpusList[j])
    requires TextToMatch(group) != ""
    requires i < |corpusList| && TextMatches(TextToMatch(group), corpusList[i])
    requires forall j | 0 <= j < i :: !TextMatches(TextToMatch(group), corpusList[j])
    ensures FindMatchedCorpus(group, corpusList) == Some(corpusList[i])
  {
    FindFirstAt(corpusList, c => TextMatches(TextToMatch(group), c), i);
  }

  /** The match is undefined exactly when no tier finds an entry; a match
      is always an entry of the list. */
  lemma NoMatchIff(group: AudioGroup, corpusList: seq<CorpusEntry>)
    ensures var r := FindMatchedCorpus(group, corpusList);
      (r.Some? ==> r.value in corpusList)
      && (r.None? <==>
        (forall j | 0 <= j < |corpusList| :: !NameMatches(group, corpusList[j]))
        && (GroupId(group) == "" || forall j | 0 <= j < |corpusList| :: !IdMatches(GroupId(group), corpusList[j]))
        && (TextToMatch(group) == "" || forall j | 0 <= j < |corpusList| :: !TextMatches(TextToMatch(group), corpusList[j])))
  {
  }

  // ---------------------------------------------------------------------------
  // Grouping items by content (the forEach into a Map)
  // ---------------------------------------------------------------------------

  /** The name a nameless item gets: 导入语料-{position + 1}. */
  function DefaultName(idx: nat): string {
    "导入语料-" + NatToString(idx + 1)
  }

  /** item.contentName || `导入语料-${idx+1}`. */
  function NameOf(item: RawItem, idx: nat): (r: string)
    ensures r != ""
  {
    if item.contentName != "" then item.contentName else DefaultName(idx)
  }

  /** The non-empty contents, in order. */
  function NonEmptyContents(items: seq<RawItem>): seq<string> {
    if items == [] then []
    else
      var c := items[|items| - 1].content;
      NonEmptyContents(items[..|items| - 1]) + (if c != "" then [c] else [])
  }

  /** The Map's keys: the distinct non-empty contents, first seen first. */
  function Keys(items: seq<RawItem>): seq<string> {
    Distinct(NonEmptyContents(items))
  }

  /** The positions of the items whose content is t, in order. */
  function Positions(items: seq<RawItem>, t: string): (p: seq<nat>)
    ensures forall k | 0 <= k < |p| :: p[k] < |items|
  {
    if items == [] then []
    else Positions(items[..|items| - 1], t) + (if items[|items| - 1].content == t then [|items| - 1] else [])
  }

  /** The names of the items at positions p, each defaulted when missing. */
  function NamesAt(items: seq<RawItem>, p: seq<nat>): (r: seq<string>)
    requires forall k | 0 <= k < |p| :: p[k] < |items|
    ensures |r| == |p|
  {
    if p == [] then []
    else NamesAt(items, p[..|p| - 1]) + [NameOf(items[p[|p| - 1]], p[|p| - 1])]
  }

  /** The items at positions p. */
  function MembersAt(items: seq<RawItem>, p: seq<nat>): (r: seq<RawItem>)
    requires forall k | 0 <= k < |p| :: p[k] < |items|
    ensures |r| == |p|
  {
    if p == [] then [] else MembersAt(items, p[..|p| - 1]) + [items[p[|p| - 1]]]
  }

  /** What the source keeps per content: the names and the items in
      input order, the first item (the primary one) and its position. */
  datatype Group = Group(text: string, names: seq<string>, members: seq<RawItem>, primary: RawItem, firstIdx: nat)

  /** The group that positions p of items make. */
  function GroupAt(items: seq<RawItem>, t: string, p: seq<nat>): Group
    requires p != [] && forall k | 0 <= k < |p| :: p[k] < |items|
  {
    Group(t, NamesAt(items, p), MembersAt(items, p), items[p[0]], p[0])
  }

  /** The group of content t. */
  function GroupOf(items: seq<RawItem>, t: string): Group
    requires Positions(items, t) != []
  {
    GroupAt(items, t, Positions(items, t))
  }

  /** The group item i opens or joins. */
  function Joined(g: Group, item: RawItem, i: nat): Group {
    g.(names := g.names + [NameOf(item, i)], members := g.members + [item])
  }

  lemma PositionsSnoc(items: seq<RawItem>, i: nat, t: string)
    requires i < |items|
    ensures Positions(items[..i + 1], t) == Positions(items[..i], t) + (if items[i].content == t then [i] else [])
  {
    assert items[..i + 1][..i] == items[..i];
  }

  /** A position appended to a group appends its item and its name. */
  lemma GroupAtSnoc(items: seq<RawItem>, t: string, p: seq<nat>, i: nat)
    requires i < |items| && forall k | 0 <= k < |p| :: p[k] < |items|
    ensures p == [] ==> GroupAt(items, t, p + [i]) == Joined(Group(t, [], [], items[i], i), items[i], i)
    ensures p != [] ==> GroupAt(items, t, p + [i]) == Joined(GroupAt(items, t, p), items[i], i)
  {
    assert (p + [i])[..|p|] == p;
  }

  lemma {:induction false} NonEmptyContentsMember(items: seq<RawItem>, t: string)
    ensures t in NonEmptyContents(items) <==> t != "" && Positions(items, t) != []
  {
    if items != [] {
      NonEmptyContentsMember(items[..|items| - 1], t);
    }
  }

  /** A content is a key exactly when it is not empty and some item has it. */
  lemma KeysMember(items: seq<RawItem>, t: string)
    ensures t in Keys(items) <==> t != "" && Positions(items, t) != []
  {
    NonEmptyContentsMember(items, t);
  }

  lemma KeysStep(items: seq<RawItem>, i: nat)
    requires i < |items|
    ensures var k := Keys(items[..i]); var c := items[i].content;
      Keys(items[..i + 1]) == if c == "" || c in k then k else k + [c]
  {
    var prefix := items[..i + 1];
    assert prefix[..i] == items[..i];
    var c := items[i].content;
    if c != "" {
      var d := NonEmptyContents(items[..i]);
      assert NonEmptyContents(prefix) == d + [c];
      DistinctSnoc(d, c);
      assert Keys(prefix) == Distinct(d + [c]);
    } else {
      var d := NonEmptyContents(items[..i]);
      assert NonEmptyContents(prefix) == d + [];
      assert d + [] == d;
    }
  }

  /** The invariant of the grouping loop after i items. */
  predicate GroupsAfter(items: seq<RawItem>, i: nat, groups: map<string, Group>)
    requires i <= |items|
  {
    forall t | t in groups :: Positions(items[..i], t) != [] && groups[t] == GroupAt(items, t, Positions(items[..i], t))
  }

  /** The group of t is unchanged by an item of another content. */
  lemma OtherUnchanged(items: seq<RawItem>, i: nat, t: string, g: Group)
    requires i < |items| && items[i].content != t
    requires Positions(items[..i], t) != [] && g == GroupAt(items, t, Positions(items[..i], t))
    ensures Positions(items[..i + 1], t) != [] && g == GroupAt(items, t, Positions(items[..i + 1], t))
  {
    PositionsSnoc(items, i, t);
    var p := Positions(items[..i], t);
    assert p + [] == p;
  }

  /** The group of item i's content after it joined. */
  lemma OwnJoined(items: seq<RawItem>, i: nat, before: map<string, Group>, g: Group)
    requires i < |items| && i <= |items| && GroupsAfter(items, i, before)
    requires var c := items[i].content; c in before <==> Positions(items[..i], c) != []
    requires var c := items[i].content; g == Joined(if c in before then before[c] else Group(c, [], [], items[i], i), items[i], i)
    ensures Positions(items[..i + 1], items[i].content) != []
    ensures g == GroupAt(items, items[i].content, Positions(items[..i + 1], items[i].content))
  {
    var c := items[i].content;
    PositionsSnoc(items, i, c);
    GroupAtSnoc(items, c, Positions(items[..i], c), i);
  }

  lemma GroupStep(items: seq<RawItem>, i: nat, before: map<string, Group>, g: Group)
    requires i < |items| && GroupsAfter(items, i, before)
    requires var c := items[i].content; c in before <==> Positions(items[..i], c) != []
    requires var c := items[i].content; g == Joined(if c in before then before[c] else Group(c, [], [], items[i], i), items[i], i)
    ensures GroupsAfter(items, i + 1, before[items[i].content := g])
  {
    var c := items[i].content;
    var after := before[c := g];
    OwnJoined(items, i, before, g);
    forall t | t in after ensures Positions(items[..i + 1], t) != [] && after[t] == GroupAt(items, t, Positions(items[..i + 1], t)) {
      if t != c {
        OtherUnchanged(items, i, t, before[t]);
      }
    }
  }

  lemma SkipStep(items: seq<RawItem>, i: nat, groups: map<string, Group>)
    requires i < |items| && items[i].content == "" && GroupsAfter(items, i, groups)
    requires forall t | t in groups :: t != ""
    ensures GroupsAfter(items, i + 1, groups)
  {
    forall t | t in groups ensures Positions(items[..i + 1], t) != [] && groups[t] == GroupAt(items, t, Positions(items[..i + 1], t)) {
      OtherUnchanged(items, i, t, groups[t]);
    }
  }

  /** The state of the grouping loop after i items. */
  ghost predicate GroupingAfter(items: seq<RawItem>, i: nat, keys: seq<string>, groups: map<string, Group>)
    requires i <= |items|
  {
    keys == Keys(items[..i]) && (forall t :: t in groups <==> t in keys)
    && GroupsAfter(items, i, groups) && "" !in groups
  }

  /** A turn of the grouping loop over an item without content keeps its
      state. */
  lemma SkipGrouping(items: seq<RawItem>, i: nat, keys: seq<string>, groups: map<string, Group>)
    requires i < |items| && GroupingAfter(items, i, keys, groups) && items[i].content == ""
    ensures GroupingAfter(items, i + 1, keys, groups)
  {
    KeysStep(items, i);
    SkipStep(items, i, groups);
  }

  /** An item whose content already has a group joins it; the keys stay. */
  lemma JoinExisting(items: seq<RawItem>, i: nat, keys: seq<string>, groups: map<string, Group>)
    requires i < |items| && GroupingAfter(items, i, keys, groups) && items[i].content in groups
    ensures var text := items[i].content;
      GroupingAfter(items, i + 1, keys, groups[text := Joined(groups[text], items[i], i)])
  {
    var text := items[i].content;
    KeysStep(items, i);
    assert text in keys;
    assert Keys(items[..i + 1]) == keys;
    var newGroups := groups[text := Joined(groups[text], items[i], i)];
    assert newGroups.Keys == groups.Keys;
    KeysMember(items[..i], text);
    GroupStep(items, i, groups, Joined(groups[text], items[i], i));
  }

  /** An item with a new non-empty content opens its group and its key. */
  lemma JoinNew(items: seq<RawItem>, i: nat, keys: seq<string>, groups: map<string, Group>)
    requires i < |items| && GroupingAfter(items, i, keys, groups)
    requires items[i].content != "" && items[i].content !in groups
    ensures var text := items[i].content;
      GroupingAfter(items, i + 1, keys + [text], groups[text := Joined(Group(text, [], [], items[i], i), items[i], i)])
  {
    var text := items[i].content;
    KeysStep(items, i);
    KeysMember(items[..i], text);
    var newGroups := groups[text := Joined(Group(text, [], [], items[i], i), items[i], i)];
    GroupStep(items, i, groups, Joined(Group(text, [], [], items[i], i), items[i], i));
    assert forall t :: t in newGroups <==> t in keys + [text];
  }

  /** A turn of the grouping loop over an item with content opens or joins
      that content's group and keeps the loop's state. */
  lemma JoinGrouping(items: seq<RawItem>, i: nat, keys: seq<string>, groups: map<string, Group>)
    requires i < |items| && GroupingAfter(items, i, keys, groups) && items[i].content != ""
    ensures var text := items[i].content;
      var entry := if text in groups then groups[text] else Group(text, [], [], items[i], i);
      GroupingAfter(items, i + 1, if text in groups then keys else keys + [text],
        groups[text := Joined(entry, items[i], i)])
  {
    if items[i].content in groups {
      JoinExisting(items, i, keys, groups);
    } else {
      JoinNew(items, i, keys, groups);
    }
  }

  /** corpusData.forEach((item, idx) => ...): a Map from content to its
      group, filled item by item; the Map's key order is `keys`. */
  method GroupByContent(items: seq<RawItem>) returns (keys: seq<string>, groups: map<string, Group>)
    ensures keys == Keys(items)
    ensures forall t :: t in groups <==> t in keys
    ensures forall t | t in groups :: Positions(items, t) != [] && groups[t] == GroupOf(items, t)
  {
    keys := [];
    groups := map[];
    var i := 0;
    while i < |items|
      invariant 0 <= i <= |items|
      invariant GroupingAfter(items, i, keys, groups)
    {
      var item := items[i];
      var text := item.content;
      if text == "" {
        SkipGrouping(items, i, keys, groups);
      } else {
        JoinGrouping(items, i, keys, groups);
        var entry := Group(text, [], [], item, i);
        if text in groups {
          entry := groups[text];
        } else {
          keys := keys + [text];
        }
        groups := groups[text := Joined(entry, item, i)];
      }
      i := i + 1;
    }
    assert items[..i] == items;
  }

  /** The positions of t are exactly the items with content t, in order. */
  lemma {:induction false} PositionsExactly(items: seq<RawItem>, t: string)
    ensures var p := Positions(items, t);
      (forall k | 0 <= k < |p| :: items[p[k]].content == t)
      && (forall k, m | 0 <= k < m < |p| :: p[k] < p[m])
      && (forall i | 0 <= i < |items| && items[i].content == t :: i in p)
  {
    if items != [] {
      var n := |items| - 1;
      var init := items[..n];
      PositionsExactly(init, t);
      var p0 := Positions(init, t);
      var p := Positions(items, t);
      assert p == p0 + (if items[n].content == t then [n] else []);
      forall i | 0 <= i < |items| && items[i].content == t
        ensures i in p
      {
        if i < n {
          assert init[i] == items[i];
        }
      }
      forall k | 0 <= k < |p|
        ensures items[p[k]].content == t
      {
        if k < |p0| {
          assert p[k] == p0[k] && init[p0[k]] == items[p0[k]];
        }
      }
    }
  }

  lemma {:induction false} AtPositions(items: seq<RawItem>, p: seq<nat>)
    requires forall k | 0 <= k < |p| :: p[k] < |items|
    ensures forall k | 0 <= k < |p| :: MembersAt(items, p)[k] == items[p[k]] && NamesAt(items, p)[k] == NameOf(items[p[k]], p[k])
  {
    if p != [] {
      AtPositions(items, p[..|p| - 1]);
    }
  }

  /** The members of a group are exactly the items with its content, in
      input order, the first of them the primary item; its names are
      theirs, each defaulted when missing. */
  lemma GroupMembers(items: seq<RawItem>, t: string)
    requires Positions(items, t) != []
    ensures var g := GroupOf(items, t); var p := Positions(items, t);
      |g.members| == |g.names| == |p|
      && (forall k | 0 <= k < |p| :: g.members[k] == items[p[k]] && g.members[k].content == t
            && g.names[k] == NameOf(items[p[k]], p[k]))
      && (forall i | 0 <= i < |items| && items[i].content == t :: i in p)
      && g.primary == g.members[0] && g.firstIdx == p[0]
      && (forall i | 0 <= i < g.firstIdx :: items[i].content != t)
  {
    PositionsExactly(items, t);
    var p := Positions(items, t);
    AtPositions(items, p);
    assert forall k | 0 < k < |p| :: p[0] < p[k];
  }

  // ---------------------------------------------------------------------------
  // The status roll-up and the entries
  // ---------------------------------------------------------------------------

  /** item.audioStatus || '0'. */
  function StatusOf(item: RawItem): string {
    if item.audioStatus == "" then "0" else item.audioStatus
  }

  function CountStatus(xs: seq<RawItem>, s: string): (n: nat)
    ensures n <= |xs|
  {
    if xs == [] then 0
    else CountStatus(xs[..|xs| - 1], s) + (if StatusOf(xs[|xs| - 1]) == s then 1 else 0)
  }

  function CountOther(xs: seq<RawItem>): (n: nat)
    ensures n <= |xs|
  {
    if xs == [] then 0
    else CountOther(xs[..|xs| - 1]) + (if StatusOf(xs[|xs| - 1]) != "1" && StatusOf(xs[|xs| - 1]) != "2" then 1 else 0)
  }

  function Stats(xs: seq<RawItem>): StatusStats {
    StatusStats(CountStatus(xs, "1"), CountStatus(xs, "2"), CountOther(xs), |xs|)
  }

  /** The three counters of entry.items.forEach. */
  method CountStatuses(members: seq<RawItem>) returns (stats: StatusStats)
    ensures stats == Stats(members)
  {
    var countVerified := 0;
    var countMarked := 0;
    var countUnverified := 0;
    var i := 0;
    while i < |members|
      invariant 0 <= i <= |members|
      invariant countVerified == CountStatus(members[..i], "1")
      invariant countMarked == CountStatus(members[..i], "2")
      invariant countUnverified == CountOther(members[..i])
    {
      assert members[..i + 1][..i] == members[..i];
      var status := StatusOf(members[i]);
      if status == "1" {
        countVerified := countVerified + 1;
      } else if status == "2" {
        countMarked := countMarked + 1;
      } else {
        countUnverified := countUnverified + 1;
      }
      i := i + 1;
    }
    assert members[..i] == members;
    stats := StatusStats(countVerified, countMarked, countUnverified, |members|);
  }

  /** '1' when every item is verified, else '2' when every item is
      marked, else '0'. */
  function AggregateStatus(stats: StatusStats): string {
    if stats.verified == stats.total then "1" else if stats.marked == stats.total then "2" else "0"
  }

  lemma {:induction false} CountAllIff(xs: seq<RawItem>, s: string)
    ensures CountStatus(xs, s) == |xs| <==> forall i | 0 <= i < |xs| :: StatusOf(xs[i]) == s
  {
    if xs != [] {
      var init := xs[..|xs| - 1];
      CountAllIff(init, s);
      assert forall i | 0 <= i < |init| :: init[i] == xs[i];
    }
  }

  lemma {:induction false} CountsAddUp(xs: seq<RawItem>)
    ensures CountStatus(xs, "1") + CountStatus(xs, "2") + CountOther(xs) == |xs|
  {
    if xs != [] {
      CountsAddUp(xs[..|xs| - 1]);
    }
  }

  /** For the items of an entry (never none): the status is '1' iff all
      are verified, '2' iff all are marked, '0' otherwise, a missing
      status counting as '0'; the three counts add up to the total. */
  lemma StatusRollUp(xs: seq<RawItem>)
    requires xs != []
    ensures AggregateStatus(Stats(xs)) == "1" <==> forall i | 0 <= i < |xs| :: StatusOf(xs[i]) == "1"
    ensures AggregateStatus(Stats(xs)) == "2" <==> forall i | 0 <= i < |xs| :: StatusOf(xs[i]) == "2"
    ensures AggregateStatus(Stats(xs)) == "0" <==>
      (exists i | 0 <= i < |xs| :: StatusOf(xs[i]) != "1") && (exists i | 0 <= i < |xs| :: StatusOf(xs[i]) != "2")
    ensures Stats(xs).verified + Stats(xs).marked + Stats(xs).unverified == Stats(xs).total
  {
    CountAllIff(xs, "1");
    CountAllIff(xs, "2");
    CountsAddUp(xs);
    assert StatusOf(xs[0]) != "1" || StatusOf(xs[0]) != "2";
  }

  /** baizeTargets: one reference per item, in order. */
  function Targets(members: seq<RawItem>): (r: seq<BaizeRef>)
    ensures |r| == |members|
    ensures forall k | 0 <= k < |members| :: r[k].originalData == members[k] && r[k].id == members[k].id && r[k].text == members[k].content
  {
    seq(|members|, k requires 0 <= k < |members| => BaizeRef(members[k].id, members[k].corpusId, members[k].content, members[k]))
  }

  /** The fields both processors give an entry, its status and statistics
      aside. */
  function EntryOf(g: Group, audioStatus: string, stats: Option<StatusStats>): CorpusEntry {
    var primary := g.primary;
    CorpusEntry(
      Join(g.names, "&"), g.text, primary.corpusType, primary.canvasName,
      audioStatus, stats, primary.audioPath,
      Some(BaizeRef(primary.id, primary.corpusId, g.text, primary)),
      Some(Targets(g.members)),
      if primary.id != "" then ItemId(primary.id) else FirstPosition(g.firstIdx))
  }

  function CorpusEntryOf(g: Group): CorpusEntry {
    EntryOf(g, AggregateStatus(Stats(g.members)), Some(Stats(g.members)))
  }

  /** The entries of the given keys, in their order (a key no item has
      gives none). */
  function Entries(items: seq<RawItem>, keys: seq<string>, make: Group -> CorpusEntry): seq<CorpusEntry> {
    if keys == [] then []
    else
      var t := keys[|keys| - 1];
      Entries(items, keys[..|keys| - 1], make) + (if Positions(items, t) != [] then [make(GroupOf(items, t))] else [])
  }

  lemma KeysPresent(items: seq<RawItem>)
    ensures forall t | t in Keys(items) :: Positions(items, t) != []
  {
    forall t | t in Keys(items) ensures Positions(items, t) != [] {
      KeysMember(items, t);
    }
  }

  /** What processCorpusData returns: one entry per key, in key order;
      None stands for an input that is not an array. */
  function ProcessedCorpus(corpusData: Option<seq<RawItem>>): seq<CorpusEntry> {
    if corpusData.None? then []
    else Entries(corpusData.value, Keys(corpusData.value), CorpusEntryOf)
  }

  method ProcessCorpusData(corpusData: Option<seq<RawItem>>) returns (preparedData: seq<CorpusEntry>)
    ensures preparedData == ProcessedCorpus(corpusData)
  {
    if corpusData.None? {
      return [];
    }
    var items := corpusData.value;
    var keys, groups := GroupByContent(items);
    preparedData := [];
    var j := 0;
    while j < |keys|
      invariant 0 <= j <= |keys|
      invariant preparedData == Entries(items, keys[..j], CorpusEntryOf)
    {
      EntriesSnoc(items, keys, CorpusEntryOf, j);
      var entry := groups[keys[j]];
      var stats := CountStatuses(entry.members);
      preparedData := preparedData + [EntryOf(entry, AggregateStatus(stats), Some(stats))];
      j := j + 1;
    }
    assert keys[..j] == keys;
  }

  lemma EntriesSnoc(items: seq<RawItem>, keys: seq<string>, make: Group -> CorpusEntry, j: nat)
    requires j < |keys| && Positions(items, keys[j]) != []
    ensures Entries(items, keys[..j + 1], make) == Entries(items, keys[..j], make) + [make(GroupOf(items, keys[j]))]
  {
    assert keys[..j + 1][..j] == keys[..j];
  }

  /** With every key present, one entry per key. */
  lemma {:induction false} EntriesLength(items: seq<RawItem>, keys: seq<string>, make: Group -> CorpusEntry)
    requires forall t | t in keys :: Positions(items, t) != []
    ensures |Entries(items, keys, make)| == |keys|
  {
    if keys != [] {
      var init := keys[..|keys| - 1];
      assert forall t | t in init :: t in keys;
      EntriesLength(items, init, make);
    }
  }

  lemma {:induction false} EntriesAt(items: seq<RawItem>, keys: seq<string>, make: Group -> CorpusEntry, j: nat)
    requires forall t | t in keys :: Positions(items, t) != []
    requires j < |keys|
    ensures |Entries(items, keys, make)| == |keys|
    ensures Entries(items, keys, make)[j] == make(GroupOf(items, keys[j]))
  {
    var init := keys[..|keys| - 1];
    assert forall t | t in init :: t in keys;
    EntriesLength(items, init, make);
    EntriesLength(items, keys, make);
    if j < |keys| - 1 {
      assert init[j] == keys[j];
      EntriesAt(items, init, make, j);
    }
  }

  /** Entry e stands for the non-empty content t and its group g: its text is
      t, its name joins the group's names, its targets are the group's
      items in input order, its Baize data is the first of them, and its
      status and statistics are those of the group's items. */
  predicate Describes(e: CorpusEntry, t: string, g: Group) {
    t != ""
    && e.text == t
    && e.index == Join(g.names, "&")
    && e.baizeTargets == Some(Targets(g.members))
    && e.baizeData == Some(BaizeRef(g.primary.id, g.primary.corpusId, t, g.primary))
    && e.audioStatus == AggregateStatus(Stats(g.members))
    && e.statusStats == Some(Stats(g.members))
    && e.uniqueId == if g.primary.id != "" then ItemId(g.primary.id) else FirstPosition(g.firstIdx)
  }

  /** The entry built for a group of non-empty content describes it. */
  lemma EntryDescribes(g: Group)
    requires g.text != ""
    ensures Describes(CorpusEntryOf(g), g.text, g)
  {
  }

  /** processCorpusData on an array gives one entry per distinct non-empty
      content, first seen first: entry j is built from the group of key j. */
  lemma ProcessedEntries(items: seq<RawItem>, j: nat)
    requires j < |Keys(items)|
    ensures Keys(items)[j] != "" && Positions(items, Keys(items)[j]) != []
    ensures |Entries(items, Keys(items), CorpusEntryOf)| == |Keys(items)|
    ensures Entries(items, Keys(items), CorpusEntryOf)[j] == CorpusEntryOf(GroupOf(items, Keys(items)[j]))
  {
    KeysPresent(items);
    EntriesAt(items, Keys(items), CorpusEntryOf, j);
    KeysMember(items, Keys(items)[j]);
  }

  /** The keys are the non-empty contents, each once, in the order of
      their first appearance. */
  lemma KeysOrder(items: seq<RawItem>)
    ensures var k := Keys(items);
      NoDuplicates(k)
      && (forall t :: t in k <==> t != "" && Positions(items, t) != [])
      && (forall a, b | 0 <= a < b < |k| :: Positions(items, k[a])[0] < Positions(items, k[b])[0])
  {
    var k := Keys(items);
    DistinctNoDuplicates(NonEmptyContents(items));
    forall t ensures t in k <==> t != "" && Positions(items, t) != [] {
      KeysMember(items, t);
    }
    KeysFirstSeenOrder(items);
  }

  /** The keys k are ordered by the first position of their content. */
  predicate FirstSeenOrdered(items: seq<RawItem>, k: seq<string>) {
    forall a, b | 0 <= a < b < |k| :: Positions(items, k[a]) != [] && Positions(items, k[b]) != []
      && Positions(items, k[a])[0] < Positions(items, k[b])[0]
  }

  lemma {:induction false} KeysFirstSeenOrder(items: seq<RawItem>)
    ensures FirstSeenOrdered(items, Keys(items))
  {
    if items != [] {
      var n := |items| - 1;
      var init := items[..n];
      assert items[..n + 1] == items;
      KeysFirstSeenOrder(init);
      KeysStep(items, n);
      var k0 := Keys(init);
      forall t | t in k0 ensures Positions(init, t) != [] && Positions(items, t) != [] && Positions(items, t)[0] == Positions(init, t)[0] && Positions(init, t)[0] < n {
        KeysMember(init, t);
        PositionsSnoc(items, n, t);
      }
      var c := items[n].content;
      if c == "" || c in k0 {
        assert Keys(items) == k0;
        FirstSeenPreserved(init, items, k0);
      } else {
        KeysMember(init, c);
        PositionsSnoc(items, n, c);
        assert Positions(items, c) == [n];
        FirstSeenPreserved(init, items, k0);
        FirstSeenAppend(items, k0, c, n);
      }
    }
  }

  /** Keys whose first positions are the same in a longer list keep their
      order there. */
  lemma FirstSeenPreserved(init: seq<RawItem>, items: seq<RawItem>, k: seq<string>)
    requires FirstSeenOrdered(init, k)
    requires forall t | t in k :: Positions(items, t) != [] && Positions(init, t) != [] && Positions(items, t)[0] == Positions(init, t)[0]
    ensures FirstSeenOrdered(items, k)
  {
    forall a, b | 0 <= a < b < |k|
      ensures Positions(items, k[a]) != [] && Positions(items, k[b]) != []
        && Positions(items, k[a])[0] < Positions(items, k[b])[0]
    {
      assert k[a] in k && k[b] in k;
    }
  }

  /** A key first seen at n comes after keys all first seen before n. */
  lemma FirstSeenAppend(items: seq<RawItem>, k: seq<string>, c: string, n: nat)
    requires FirstSeenOrdered(items, k)
    requires forall t | t in k :: Positions(items, t) != [] && Positions(items, t)[0] < n
    requires Positions(items, c) == [n]
    ensures FirstSeenOrdered(items, k + [c])
  {
    var k1 := k + [c];
    forall a, b | 0 <= a < b < |k1|
      ensures Positions(items, k1[a]) != [] && Positions(items, k1[b]) != []
        && Positions(items, k1[a])[0] < Positions(items, k1[b])[0]
    {
      assert k1[a] == k[a] && k[a] in k;
      if b < |k| {
        assert k1[b] == k[b];
      } else {
        assert k1[b] == c;
      }
    }
  }
}
