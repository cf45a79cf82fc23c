/** src/components/CorpusSelectionDialog.jsx: the dialog that lists the
    corpus entries of a script under five filters and lets the user pick
    entries by their uniqueId before confirming. */
module CorpusSelectionDialog {
  import opened Common
  import opened EditorData

  // ---------------------------------------------------------------------------
  // The filter
  // ---------------------------------------------------------------------------

  const ALL := "全部"
  const MAIN_FLOW := "主流程"
  const KNOWLEDGE_BASE := "知识库"
  const FUNCTION_SCRIPT := "功能话术"
  const UNVERIFIED := "未验听"
  const VERIFIED := "已验听"
  const MARKED := "已标记"
  const UNKNOWN := "未知"

  /** The five filter fields of the dialog. */
  datatype Filters = Filters(corpusName: string, textContent: string, processFlow: string, corpusType: string, auditStatus: string)

  /** An empty filter accepts everything; any other is a substring test
      that ignores case. */
  predicate TextMatch(filter: string, field: string) {
    filter == "" || Contains(Lower(field), Lower(filter))
  }

  /** The corpus-type filter on item.corpusType || ''. */
  predicate TypeMatch(filter: string, cType: string) {
    if filter == ALL then true
    else if filter == MAIN_FLOW then StartsWith(cType, "MASTER_")
    else if filter == KNOWLEDGE_BASE then StartsWith(cType, "KNOWLEDGE_")
    else if filter == FUNCTION_SCRIPT then StartsWith(cType, "FUNC_") || StartsWith(cType, "PRE_")
    else false
  }

  /** The audit-status filter on item.audioStatus. */
  predicate StatusMatch(filter: string, status: string) {
    if filter == ALL then true
    else if filter == UNVERIFIED then status == "0"
    else if filter == VERIFIED then status == "1"
    else if filter == MARKED then status == "2"
    else false
  }

  /** The five tests of the filter on one entry. */
  predicate NameShown(f: Filters, item: CorpusEntry) { TextMatch(f.corpusName, item.index) }
  predicate TextShown(f: Filters, item: CorpusEntry) { TextMatch(f.textContent, item.text) }
  predicate FlowShown(f: Filters, item: CorpusEntry) { TextMatch(f.processFlow, item.canvasName) }
  predicate TypeShown(f: Filters, item: CorpusEntry) { TypeMatch(f.corpusType, item.corpusType) }
  predicate StatusShown(f: Filters, item: CorpusEntry) { StatusMatch(f.auditStatus, item.audioStatus) }

  /** The filter predicate of filteredCorpus. */
  predicate Shown(f: Filters, item: CorpusEntry) {
    NameShown(f, item) && TextShown(f, item) && FlowShown(f, item) && TypeShown(f, item) && StatusShown(f, item)
  }

  function FilteredCorpus(f: Filters, corpusList: seq<CorpusEntry>): seq<CorpusEntry> {
    Filter(corpusList, item => Shown(f, item))
  }

  /** The entries shown are exactly the entries of the list that pass all
      five tests, in list order. */
  lemma ShownIffAllFive(f: Filters, corpusList: seq<CorpusEntry>, item: CorpusEntry)
    ensures item in FilteredCorpus(f, corpusList) <==>
      item in corpusList && NameShown(f, item) && TextShown(f, item) && FlowShown(f, item) && TypeShown(f, item) && StatusShown(f, item)
  {
    FilterMember(corpusList, x => Shown(f, x), item);
  }

  lemma FilteredKeepsOrder(f: Filters, a: seq<CorpusEntry>, b: seq<CorpusEntry>)
    ensures FilteredCorpus(f, a + b) == FilteredCorpus(f, a) + FilteredCorpus(f, b)
  {
    FilterConcat(a, b, x => Shown(f, x));
  }

  /** The dialog opens with the text filters empty and both menus on
      全部, and then shows every entry. */
  lemma InitialFiltersShowAll(corpusList: seq<CorpusEntry>)
    ensures FilteredCorpus(Filters("", "", "", ALL, ALL), corpusList) == corpusList
  {
    if corpusList != [] {
      InitialFiltersShowAll(corpusList[1..]);
      assert corpusList == [corpusList[0]] + corpusList[1..];
    }
  }

  /** A non-empty text filter is case-blind: it accepts a field exactly
      when the lower-cased field holds the lower-cased filter somewhere;
      so a field always passes a filter that is a piece of it. */
  lemma TextMatchIff(filter: string, field: string)
    requires filter != ""
    ensures TextMatch(filter, field) <==> exists k :: OccursAt(Lower(field), Lower(filter), k)
  {
    assert TextMatch(filter, field) == Contains(Lower(field), Lower(filter));
    ContainsIffOccurs(Lower(field), Lower(filter));
  }

  lemma {:induction false} LowerSlice(s: string, i: nat, j: nat)
    requires i <= j <= |s|
    ensures Lower(s)[i..j] == Lower(s[i..j])
  {
    assert forall k | 0 <= k < j - i :: Lower(s)[i..j][k] == LowerChar(s[i + k]);
  }

  lemma PieceOfFieldMatches(field: string, i: nat, j: nat)
    requires i <= j <= |field|
    ensures TextMatch(field[i..j], field)
  {
    if field[i..j] != "" {
      LowerSlice(field, i, j);
      assert OccursAt(Lower(field), Lower(field[i..j]), i);
      TextMatchIff(field[i..j], field);
    }
  }

  /** The type filter: each menu entry accepts exactly its prefixes, 全部
      accepts every type, an unknown menu value accepts none. */
  lemma TypeFilterCases(filter: string, cType: string)
    ensures filter == ALL ==> TypeMatch(filter, cType)
    ensures filter == MAIN_FLOW ==> (TypeMatch(filter, cType) <==> StartsWith(cType, "MASTER_"))
    ensures filter == KNOWLEDGE_BASE ==> (TypeMatch(filter, cType) <==> StartsWith(cType, "KNOWLEDGE_"))
    ensures filter == FUNCTION_SCRIPT ==> (TypeMatch(filter, cType) <==> StartsWith(cType, "FUNC_") || StartsWith(cType, "PRE_"))
    ensures filter !in {ALL, MAIN_FLOW, KNOWLEDGE_BASE, FUNCTION_SCRIPT} ==> !TypeMatch(filter, cType)
    ensures filter != ALL && cType == "" ==> !TypeMatch(filter, cType)
  {
  }

  /** The status filter: 未验听, 已验听 and 已标记 accept exactly '0', '1'
      and '2'. */
  lemma StatusFilterCases(filter: string, status: string)
    ensures filter == ALL ==> StatusMatch(filter, status)
    ensures filter == UNVERIFIED ==> (StatusMatch(filter, status) <==> status == "0")
    ensures filter == VERIFIED ==> (StatusMatch(filter, status) <==> status == "1")
    ensures filter == MARKED ==> (StatusMatch(filter, status) <==> status == "2")
    ensures filter !in {ALL, UNVERIFIED, VERIFIED, MARKED} ==> !StatusMatch(filter, status)
  {
  }

  /** getStatusLabel. */
  function StatusLabel(status: string): string {
    if status == "0" then UNVERIFIED
    else if status == "1" then VERIFIED
    else if status == "2" then MARKED
    else UNKNOWN
  }

  /** The label an entry shows is the status menu entry that selects it,
      and an entry labelled 未知 passes no status filter but 全部. */
  lemma LabelSelects(status: string)
    ensures StatusLabel(status) != UNKNOWN ==> StatusMatch(StatusLabel(status), status)
    ensures StatusLabel(status) != UNKNOWN <==> status in {"0", "1", "2"}
    ensures StatusLabel(status) == UNKNOWN ==> forall filter | filter != ALL :: !StatusMatch(filter, status)
    ensures forall filter | filter != ALL && StatusMatch(filter, status) :: filter == StatusLabel(status)
  {
  }

  // ---------------------------------------------------------------------------
  // Selection
  // ---------------------------------------------------------------------------

  /** The set handleCorpusToggle leaves. */
  function Toggled(selected: set<UniqueId>, id: UniqueId): set<UniqueId> {
    if id in selected then selected - {id} else selected + {id}
  }

  /** Toggling flips membership of that id alone, and twice restores. */
  lemma ToggleFlips(selected: set<UniqueId>, id: UniqueId)
    ensures id in Toggled(selected, id) <==> id !in selected
    ensures forall other | other != id :: other in Toggled(selected, id) <==> other in selected
    ensures Toggled(Toggled(selected, id), id) == selected
  {
  }

  /** The uniqueIds of some entries. */
  function IdsOf(items: seq<CorpusEntry>): set<UniqueId> {
    if items == [] then {} else IdsOf(items[..|items| - 1]) + {items[|items| - 1].uniqueId}
  }

  /** An id is among them exactly when one of the entries carries it. */
  lemma {:induction false} IdsOfMember(items: seq<CorpusEntry>, id: UniqueId)
    ensures id in IdsOf(items) <==> exists k | 0 <= k < |items| :: items[k].uniqueId == id
  {
    if items != [] {
      var init := items[..|items| - 1];
      IdsOfMember(init, id);
      assert forall k | 0 <= k < |init| :: init[k] == items[k];
    }
  }

  /** The entries of the list whose uniqueId is selected, in list order. */
  function SelectedItems(corpusList: seq<CorpusEntry>, selected: set<UniqueId>): seq<CorpusEntry> {
    Filter(corpusList, (item: CorpusEntry) => item.uniqueId in selected)
  }

  /** What handleConfirm hands to onConfirm: nothing (the alert) when no
      entry is selected. */
  function ConfirmOutcome(corpusList: seq<CorpusEntry>, selected: set<UniqueId>): Option<seq<CorpusEntry>> {
    var items := SelectedItems(corpusList, selected);
    if items == [] then None else Some(items)
  }

  /** Confirm hands on exactly the selected entries of the list, in list
      order, and refuses when none of the list's entries is selected,
      even if the set holds ids of entries not in the list. */
  lemma ConfirmSelected(corpusList: seq<CorpusEntry>, selected: set<UniqueId>)
    ensures ConfirmOutcome(corpusList, selected).None? <==> forall i | 0 <= i < |corpusList| :: corpusList[i].uniqueId !in selected
    ensures ConfirmOutcome(corpusList, selected).Some? ==>
      forall item :: item in ConfirmOutcome(corpusList, selected).value <==> item in corpusList && item.uniqueId in selected
  {
    FilterEmpty(corpusList, (item: CorpusEntry) => item.uniqueId in selected);
    forall item ensures item in SelectedItems(corpusList, selected) <==> item in corpusList && item.uniqueId in selected {
      FilterMember(corpusList, (x: CorpusEntry) => x.uniqueId in selected, item);
    }
  }

  lemma ConfirmKeepsOrder(a: seq<CorpusEntry>, b: seq<CorpusEntry>, selected: set<UniqueId>)
    ensures SelectedItems(a + b, selected) == SelectedItems(a, selected) + SelectedItems(b, selected)
  {
    FilterConcat(a, b, (item: CorpusEntry) => item.uniqueId in selected);
  }

  /** The state of one opening of the dialog: the list it shows, the
      filter fields and the set of selected uniqueIds. */
  class CorpusSelection {
    const corpusList: seq<CorpusEntry>
    var filters: Filters
    var selected: set<UniqueId>

    /** The dialog mounts with empty text filters, both menus on 全部 and
        nothing selected. */
    constructor (corpusList: seq<CorpusEntry>)
      ensures this.corpusList == corpusList
      ensures filters == Filters("", "", "", ALL, ALL) && selected == {}
    {
      this.corpusList := corpusList;
      filters := Filters("", "", "", ALL, ALL);
      selected := {};
    }

    /** The list as shown now. */
    function Visible(): seq<CorpusEntry>
      reads this
    {
      FilteredCorpus(filters, corpusList)
    }

    /** An edit of a filter field. */
    method SetFilters(f: Filters)
      modifies this
      ensures filters == f && selected == old(selected)
    {
      filters := f;
    }

    method Toggle(id: UniqueId)
      modifies this
      ensures selected == Toggled(old(selected), id) && filters == old(filters)
    {
      var newSelected := selected;
      if id in newSelected {
        newSelected := newSelected - {id};
      } else {
        newSelected := newSelected + {id};
      }
      selected := newSelected;
    }

    /** handleSelectCurrent: adds the id of every shown entry, removes none. */
    method SelectCurrent()
      modifies this
      ensures selected == old(selected) + IdsOf(old(Visible())) && filters == old(filters)
    {
      var shown := FilteredCorpus(filters, corpusList);
      var newSelected := selected;
      var i := 0;
      while i < |shown|
        invariant 0 <= i <= |shown|
        invariant newSelected == selected + IdsOf(shown[..i])
      {
        assert shown[..i + 1][..i] == shown[..i];
        newSelected := newSelected + {shown[i].uniqueId};
        i := i + 1;
      }
      assert shown[..i] == shown;
      selected := newSelected;
    }

    method ClearAll()
      modifies this
      ensures selected == {} && filters == old(filters)
    {
      selected := {};
    }

    /** handleConfirm: the entries handed to onConfirm, or None for the
        alert; the state is unchanged. */
    method Confirm() returns (r: Option<seq<CorpusEntry>>)
      ensures r == ConfirmOutcome(corpusList, selected)
    {
      var ids := selected;
      var selectedItems := Filter(corpusList, (item: CorpusEntry) => item.uniqueId in ids);
      if |selectedItems| == 0 {
        return None;
      }
      return Some(selectedItems);
    }
  }
}
