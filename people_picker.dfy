/**
 * The people picker: suggestions for a typed filter, the selection kept in
 * sync with a list of numeric user ids, and the ids reported back when the
 * selection changes.
 */
module PeoplePicker {
  import opened JsValues
  import JsStrings
  import Seqs

  /** The persona fields the picker reads. */
  datatype Persona = Persona(id: Option<string>, text: Option<string>, secondaryText: Option<string>)

  /** The most suggestions offered at once. */
  const SuggestionLimit: nat := 10

  /** `field?.toLowerCase().includes(filter.toLowerCase())`; a missing field never matches. */
  predicate FieldMatches(field: Option<string>, filterText: string) {
    field.Some? && JsStrings.Includes(JsStrings.ToLower(field.value), JsStrings.ToLower(filterText))
  }

  /** A user matches when its name or its e-mail contains the filter, ignoring case. */
  predicate Matches(user: Persona, filterText: string) {
    FieldMatches(user.text, filterText) || FieldMatches(user.secondaryText, filterText)
  }

  /** `listContainsPersona`: some persona in the list has the same id. */
  predicate ListContainsPersona(persona: Persona, personas: seq<Persona>) {
    exists i :: 0 <= i < |personas| && personas[i].id == persona.id
  }

  /** `removeDuplicates`: the personas whose id is not among the selected ones, in order. */
  function RemoveDuplicates(personas: seq<Persona>, selected: seq<Persona>): (r: seq<Persona>)
    ensures forall i :: 0 <= i < |r| ==> !ListContainsPersona(r[i], selected)
    ensures forall i :: 0 <= i < |personas| && !ListContainsPersona(personas[i], selected) ==> personas[i] in r
    ensures Seqs.IsSubsequence(r, personas)
  {
    Seqs.Filter(personas, (p: Persona) => !ListContainsPersona(p, selected))
  }

  /** `onFilterChanged`: no suggestions for an empty filter, else the first ten matching, unselected users. */
  function Suggestions(usersList: seq<Persona>, filterText: string, current: seq<Persona>): seq<Persona> {
    if filterText == "" then []
    else
      var filtered := Seqs.Filter(usersList, (u: Persona) => Matches(u, filterText));
      Seqs.Take(RemoveDuplicates(filtered, current), SuggestionLimit)
  }

  /** The users a non-empty filter can offer: matching and not already selected, in list order. */
  function Candidates(usersList: seq<Persona>, filterText: string, current: seq<Persona>): seq<Persona> {
    Seqs.Filter(usersList, (u: Persona) => Matches(u, filterText) && !ListContainsPersona(u, current))
  }

  /** The suggestions are the first ten candidates. */
  lemma SuggestionsAreCandidates(usersList: seq<Persona>, filterText: string, current: seq<Persona>)
    requires filterText != ""
    ensures Suggestions(usersList, filterText, current) == Seqs.Take(Candidates(usersList, filterText, current), SuggestionLimit)
  {
    Seqs.FilterFilter(usersList, (u: Persona) => Matches(u, filterText), (p: Persona) => !ListContainsPersona(p, current),
      (u: Persona) => Matches(u, filterText) && !ListContainsPersona(u, current));
  }

  /**
   * What a suggestion list is: empty for an empty filter; otherwise at most ten
   * users, each matching and not selected, in list order; and when there are at
   * most ten candidates, every one of them.
   */
  lemma SuggestionsSpec(usersList: seq<Persona>, filterText: string, current: seq<Persona>)
    ensures filterText == "" ==> Suggestions(usersList, filterText, current) == []
    ensures |Suggestions(usersList, filterText, current)| <= SuggestionLimit
    ensures forall i :: 0 <= i < |Suggestions(usersList, filterText, current)| ==>
      Matches(Suggestions(usersList, filterText, current)[i], filterText)
      && !ListContainsPersona(Suggestions(usersList, filterText, current)[i], current)
    ensures Seqs.IsSubsequence(Suggestions(usersList, filterText, current), usersList)
    ensures filterText != "" && |Candidates(usersList, filterText, current)| <= SuggestionLimit ==>
      forall u :: u in usersList && Matches(u, filterText) && !ListContainsPersona(u, current) ==>
        u in Suggestions(usersList, filterText, current)
  {
    if filterText != "" {
      SuggestionsAreCandidates(usersList, filterText, current);
      var c := Candidates(usersList, filterText, current);
      Seqs.PrefixOfSubsequence(c, usersList, SuggestionLimit);
      var r := Suggestions(usersList, filterText, current);
      forall i | 0 <= i < |r|
        ensures Matches(r[i], filterText) && !ListContainsPersona(r[i], current)
      {
        assert r[i] == c[i];
      }
      if |c| <= SuggestionLimit {
        forall u | u in usersList && Matches(u, filterText) && !ListContainsPersona(u, current)
          ensures u in r
        {
          var k :| 0 <= k < |usersList| && usersList[k] == u;
          assert u in c;
        }
      }
    }
  }

  /** An id as the picker's owner stores it: `Number(user.id)`, for a user whose id is the decimal form of a number. */
  predicate CanonicalId(p: Persona) {
    p.id.Some? && IdToNumber(p.id).Num? && IdToNumber(p.id).n >= 0
    && p.id.value == DecimalString(IdToNumber(p.id).n)
  }

  /** The selection sync's test: `selectedUserIds.includes(Number(user.id))`. */
  predicate IsSelectedBy(user: Persona, selectedUserIds: seq<int>) {
    IdToNumber(user.id).Num? && IdToNumber(user.id).n in selectedUserIds
  }

  /** `selected.map(item => Number(item.id))`. */
  function SelectedIds(selected: seq<Persona>): (ids: seq<JsNumber>)
    ensures |ids| == |selected|
    ensures forall i :: 0 <= i < |selected| ==> ids[i] == IdToNumber(selected[i].id)
  {
    if selected == [] then [] else [IdToNumber(selected[0].id)] + SelectedIds(selected[1..])
  }

  /** The numeric values among reported ids (NaN dropped), as the owner passes them back. */
  function Numbers(ids: seq<JsNumber>): (ns: seq<int>)
    ensures forall i :: 0 <= i < |ids| && ids[i].Num? ==> ids[i].n in ns
    ensures forall n :: n in ns ==> Num(n) in ids
  {
    if ids == [] then []
    else
      var rest := Numbers(ids[1..]);
      assert forall n :: Num(n) in ids[1..] ==> Num(n) in ids;
      if ids[0].Num? then [ids[0].n] + rest else rest
  }

  /**
   * Reporting a selection and syncing back from the reported ids selects the
   * same users, when user ids are canonical and distinct and the selection
   * was taken from the list in order.
   */
  lemma SyncRestoresSelection(usersList: seq<Persona>, selection: seq<Persona>)
    requires forall i :: 0 <= i < |usersList| ==> CanonicalId(usersList[i])
    requires forall i, j :: 0 <= i < j < |usersList| ==> usersList[i].id != usersList[j].id
    requires Seqs.IsSubsequence(selection, usersList)
    ensures Seqs.Filter(usersList, (u: Persona) => IsSelectedBy(u, Numbers(SelectedIds(selection)))) == selection
  {
    var ids := Numbers(SelectedIds(selection));
    Seqs.SubsequenceMembers(selection, usersList);
    forall i | 0 <= i < |usersList|
      ensures IsSelectedBy(usersList[i], ids) <==> usersList[i] in selection
    {
      SelectedIff(usersList, selection, i);
    }
    assert Seqs.Distinct(usersList) by {
      forall i, j | 0 <= i < j < |usersList|
        ensures usersList[i] != usersList[j]
      {
        assert usersList[i].id != usersList[j].id;
      }
    }
    Seqs.FilterRecoversSubsequence(usersList, selection, (u: Persona) => IsSelectedBy(u, ids));
  }

  /** One user of the list is picked by the reported ids exactly when it was selected. */
  lemma SelectedIff(usersList: seq<Persona>, selection: seq<Persona>, i: int)
    requires forall i :: 0 <= i < |usersList| ==> CanonicalId(usersList[i])
    requires forall i, j :: 0 <= i < j < |usersList| ==> usersList[i].id != usersList[j].id
    requires forall j :: 0 <= j < |selection| ==> selection[j] in usersList
    requires 0 <= i < |usersList|
    ensures IsSelectedBy(usersList[i], Numbers(SelectedIds(selection))) <==> usersList[i] in selection
  {
    var u := usersList[i];
    var reported := SelectedIds(selection);
    if u in selection {
      var j :| 0 <= j < |selection| && selection[j] == u;
      assert reported[j] == IdToNumber(u.id);
      assert CanonicalId(u);
    }
    if IsSelectedBy(u, Numbers(reported)) {
      var n := IdToNumber(u.id).n;
      assert Num(n) in reported;
      var j :| 0 <= j < |selection| && reported[j] == Num(n);
      var k :| 0 <= k < |usersList| && usersList[k] == selection[j];
      SameNumberSameId(usersList[k], u);
    }
  }

  /** Canonical ids with the same numeric value are the same id. */
  lemma SameNumberSameId(a: Persona, b: Persona)
    requires CanonicalId(a) && CanonicalId(b) && IdToNumber(a.id) == IdToNumber(b.id)
    ensures a.id == b.id
  {
  }

  /** `onValidateInput`: typed text is accepted once its `length` (UTF-16 code units) exceeds two. */
  datatype ValidationState = Valid | Invalid

  function ValidateInput(input: string): (v: ValidationState)
    ensures v.Valid? <==> JsStrings.Utf16Length(input) > 2
    ensures |input| > 2 ==> v.Valid?
    ensures |input| <= 1 ==> v.Invalid?
  {
    JsStrings.Utf16LengthBounds(input);
    if JsStrings.Utf16Length(input) > 2 then Valid else Invalid
  }

  /** Two characters outside the Basic Multilingual Plane are four code units: accepted. */
  lemma TwoAstralCharactersValidate(c: char, d: char)
    requires c as int > 0xFFFF && d as int > 0xFFFF
    ensures ValidateInput([c, d]).Valid?
  {
    assert [c, d][1..] == [d] && [d][1..] == [];
    assert JsStrings.Utf16Length([d]) == 2;
    assert JsStrings.Utf16Length([c, d]) == 4;
  }

  /** The picker's state: the loaded users and the current selection. */
  class PickerState {
    var usersList: seq<Persona>
    var selectedUsers: seq<Persona>

    constructor()
      ensures usersList == [] && selectedUsers == []
    {
      usersList := [];
      selectedUsers := [];
    }

    /** The user-loading effect; a failed load only logs, leaving the list as it was. */
    method LoadUsers(loaded: Option<seq<Persona>>)
      modifies this
      ensures loaded.Some? ==> usersList == loaded.value
      ensures loaded.None? ==> usersList == old(usersList)
      ensures selectedUsers == old(selectedUsers)
    {
      if loaded.Some? {
        usersList := loaded.value;
      }
    }

    /** The sync effect: with ids and users both present, select exactly the users whose numeric id is listed. */
    method SyncSelected(selectedUserIds: seq<int>)
      modifies this
      ensures usersList == old(usersList)
      ensures |selectedUserIds| > 0 && |usersList| > 0 ==>
        selectedUsers == Seqs.Filter(usersList, (u: Persona) => IsSelectedBy(u, selectedUserIds))
      ensures !(|selectedUserIds| > 0 && |usersList| > 0) ==> selectedUsers == old(selectedUsers)
    {
      if |selectedUserIds| > 0 && |usersList| > 0 {
        selectedUsers := Seqs.Filter(usersList, (u: Persona) => IsSelectedBy(u, selectedUserIds));
      }
    }

    /** `onSelectionChanged`: store the new selection (none when absent) and report its ids as numbers. */
    method OnSelectionChanged(items: Option<seq<Persona>>) returns (userIds: seq<JsNumber>)
      modifies this
      ensures selectedUsers == items.GetOr([])
      ensures usersList == old(usersList)
      ensures userIds == SelectedIds(selectedUsers)
    {
      var selected := items.GetOr([]);
      selectedUsers := selected;
      userIds := SelectedIds(selected);
    }
  }
}
