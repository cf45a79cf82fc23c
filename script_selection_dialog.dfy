/** src/components/ScriptSelectionDialog.jsx: the list of Baize scripts
    whose name holds the search term, the selected script moved to the
    top, and the confirm button that needs a selection. */
module ScriptSelectionDialog {
  import opened Common
  import opened EditorData

  /** s.scriptName.toLowerCase().includes(searchTerm.toLowerCase()). */
  predicate NameHolds(searchTerm: string, s: Script) {
    Contains(Lower(s.scriptName), Lower(searchTerm))
  }

  function Matching(scripts: seq<Script>, searchTerm: string): seq<Script> {
    Filter(scripts, s => NameHolds(searchTerm, s))
  }

  predicate IsSelected(selected: Option<Script>, s: Script) {
    selected.Some? && s.id == selected.value.id
  }

  /** The list shown: the matching scripts stably sorted by a comparator
      that puts the selected script before every other and leaves the
      rest as they are. */
  function Displayed(scripts: seq<Script>, searchTerm: string, selected: Option<Script>): seq<Script> {
    var shown := Matching(scripts, searchTerm);
    Filter(shown, s => IsSelected(selected, s)) + Filter(shown, s => !IsSelected(selected, s))
  }

  /** A script is listed exactly when its name holds the term, case
      aside; an empty term lists every script. */
  lemma DisplayedMember(scripts: seq<Script>, searchTerm: string, selected: Option<Script>, s: Script)
    ensures s in Displayed(scripts, searchTerm, selected) <==> s in scripts && NameHolds(searchTerm, s)
  {
    var shown := Matching(scripts, searchTerm);
    FilterMember(scripts, x => NameHolds(searchTerm, x), s);
    FilterMember(shown, x => IsSelected(selected, x), s);
    FilterMember(shown, x => !IsSelected(selected, x), s);
  }

  lemma EmptyTermListsAll(scripts: seq<Script>)
    ensures Matching(scripts, "") == scripts
  {
    forall i | 0 <= i < |scripts| ensures NameHolds("", scripts[i]) {
      assert StartsWith(Lower(scripts[i].scriptName), "");
    }
    FilterAll(scripts, s => NameHolds("", s));
  }

  /** Sorting adds and drops nothing: the list is a permutation of the
      matching scripts. */
  lemma DisplayedIsPermutation(scripts: seq<Script>, searchTerm: string, selected: Option<Script>)
    ensures multiset(Displayed(scripts, searchTerm, selected)) == multiset(Matching(scripts, searchTerm))
  {
    var shown := Matching(scripts, searchTerm);
    FilterPartition(shown, s => IsSelected(selected, s), s => !IsSelected(selected, s));
    var a := Filter(shown, s => IsSelected(selected, s));
    var b := Filter(shown, s => !IsSelected(selected, s));
    assert Displayed(scripts, searchTerm, selected) == a + b;
    assert multiset(a + b) == multiset(a) + multiset(b);
  }

  /** The selected script comes before every other, and the other
      scripts keep their order. */
  lemma SelectedFirst(scripts: seq<Script>, searchTerm: string, selected: Option<Script>)
    ensures var d := Displayed(scripts, searchTerm, selected);
      forall i, j | 0 <= i < j < |d| && IsSelected(selected, d[j]) :: IsSelected(selected, d[i])
    ensures Filter(Displayed(scripts, searchTerm, selected), s => !IsSelected(selected, s))
      == Filter(Matching(scripts, searchTerm), s => !IsSelected(selected, s))
  {
    var shown := Matching(scripts, searchTerm);
    var a := Filter(shown, s => IsSelected(selected, s));
    var b := Filter(shown, s => !IsSelected(selected, s));
    forall k | 0 <= k < |a| ensures IsSelected(selected, a[k]) {
      FilterMember(shown, s => IsSelected(selected, s), a[k]);
    }
    forall k | 0 <= k < |b| ensures !IsSelected(selected, b[k]) {
      FilterMember(shown, s => !IsSelected(selected, s), b[k]);
    }
    FilterConcat(a, b, s => !IsSelected(selected, s));
    FilterEmpty(a, s => !IsSelected(selected, s));
    FilterAll(b, s => !IsSelected(selected, s));
    assert [] + b == b;
  }

  /** Without a selection the list is the matching scripts as they came. */
  lemma NoSelectionKeepsOrder(scripts: seq<Script>, searchTerm: string)
    ensures Displayed(scripts, searchTerm, None) == Matching(scripts, searchTerm)
  {
    var shown := Matching(scripts, searchTerm);
    FilterEmpty(shown, s => IsSelected(None, s));
    FilterAll(shown, s => !IsSelected(None, s));
  }

  /** 确定 is enabled exactly when a script is selected. */
  function ConfirmEnabled(selected: Option<Script>): bool {
    selected.Some?
  }

  /** The empty-state message shows exactly when no script matches, and
      then nothing is listed. */
  function ShowsEmptyState(scripts: seq<Script>, searchTerm: string): bool {
    |Matching(scripts, searchTerm)| == 0
  }

  lemma EmptyStateIff(scripts: seq<Script>, searchTerm: string, selected: Option<Script>)
    ensures ShowsEmptyState(scripts, searchTerm) <==> forall i | 0 <= i < |scripts| :: !NameHolds(searchTerm, scripts[i])
    ensures ShowsEmptyState(scripts, searchTerm) <==> Displayed(scripts, searchTerm, selected) == []
  {
    FilterEmpty(scripts, s => NameHolds(searchTerm, s));
    DisplayedIsPermutation(scripts, searchTerm, selected);
  }
}
