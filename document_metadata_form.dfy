/**
 * The document metadata form: initial values, field edits, the validity rule
 * and save gating, and the Assigned To people picker wiring.
 */
module DocumentMetadataForm {
  import opened JsValues
  import JsStrings
  import PeoplePicker
  import Seqs

  /** The form values (`IDocumentMetadataProps`); `AssignedToId` may be a number, NaN, or absent. */
  datatype Values = Values(
    DocumentCode: string,
    Title: string,
    Revision: string,
    Status: string,
    IssuePurpose: string,
    ApprovalCode: string,
    AssignedToId: Option<JsNumber>,
    Notes: string)

  /** `initialValues`: any subset of the fields. */
  datatype InitialValues = InitialValues(
    DocumentCode: Option<string>,
    Title: Option<string>,
    Revision: Option<string>,
    Status: Option<string>,
    IssuePurpose: Option<string>,
    ApprovalCode: Option<string>,
    AssignedToId: Option<JsNumber>,
    Notes: Option<string>)

  const RequiredMessage: string := "Compila tutti i campi obbligatori prima di salvare."

  /** The starting values: missing strings become `''`; `AssignedToId` is taken as given. */
  function Initial(init: InitialValues): (v: Values)
    ensures v.AssignedToId == init.AssignedToId
    ensures v.DocumentCode == OrEmpty(init.DocumentCode) && v.Title == OrEmpty(init.Title)
    ensures v.Revision == OrEmpty(init.Revision) && v.Status == OrEmpty(init.Status)
    ensures v.IssuePurpose == OrEmpty(init.IssuePurpose) && v.ApprovalCode == OrEmpty(init.ApprovalCode)
    ensures v.Notes == OrEmpty(init.Notes)
  {
    Values(
      OrEmpty(init.DocumentCode), OrEmpty(init.Title), OrEmpty(init.Revision), OrEmpty(init.Status),
      OrEmpty(init.IssuePurpose), OrEmpty(init.ApprovalCode), init.AssignedToId, OrEmpty(init.Notes))
  }

  /** `s.trim() !== ''`. */
  predicate Filled(s: string) {
    JsStrings.Trim(s) != ""
  }

  /** `!!AssignedToId`: absent, 0 and NaN are all falsy. */
  predicate AssignedTruthy(id: Option<JsNumber>) {
    id.Some? && NumberTruthy(id.value)
  }

  /** `isValid`: six required text fields not blank, and an assignee. */
  predicate IsValid(v: Values) {
    && Filled(v.DocumentCode) && Filled(v.Title) && Filled(v.Revision)
    && Filled(v.Status) && Filled(v.IssuePurpose) && Filled(v.ApprovalCode)
    && AssignedTruthy(v.AssignedToId)
  }

  /** The field holds a character other than whitespace. */
  predicate HasContent(s: string) {
    exists i :: 0 <= i < |s| && !JsStrings.IsWhitespace(s[i])
  }

  /** A field is filled exactly when it holds a character other than whitespace. */
  lemma FilledIff(s: string)
    ensures Filled(s) <==> HasContent(s)
  {
    JsStrings.TrimEmptyIff(s);
  }

  /** The validity rule, both ways: 0 and NaN ids are invalid, and Notes play no part. */
  lemma IsValidSpec(v: Values, notes: string)
    ensures IsValid(v) <==>
      && HasContent(v.DocumentCode) && HasContent(v.Title) && HasContent(v.Revision)
      && HasContent(v.Status) && HasContent(v.IssuePurpose) && HasContent(v.ApprovalCode)
      && v.AssignedToId.Some? && v.AssignedToId.value.Num? && v.AssignedToId.value.n != 0
    ensures IsValid(v.(Notes := notes)) == IsValid(v)
  {
    FilledIff(v.DocumentCode);
    FilledIff(v.Title);
    FilledIff(v.Revision);
    FilledIff(v.Status);
    FilledIff(v.IssuePurpose);
    FilledIff(v.ApprovalCode);
  }

  /** The text fields `handleChange` is called with. */
  datatype TextField = DocumentCodeField | TitleField | RevisionField | StatusField | IssuePurposeField | ApprovalCodeField | NotesField

  /** One `handleChange(field, value)` call: a text field, or `AssignedToId`. */
  datatype Change = SetText(field: TextField, text: string) | SetAssignedTo(id: Option<JsNumber>)

  function Get(v: Values, f: TextField): string {
    match f
    case DocumentCodeField => v.DocumentCode
    case TitleField => v.Title
    case RevisionField => v.Revision
    case StatusField => v.Status
    case IssuePurposeField => v.IssuePurpose
    case ApprovalCodeField => v.ApprovalCode
    case NotesField => v.Notes
  }

  /** `{ ...v, [field]: value }`. */
  function Apply(v: Values, c: Change): Values {
    match c
    case SetAssignedTo(id) => v.(AssignedToId := id)
    case SetText(f, t) =>
      match f
      case DocumentCodeField => v.(DocumentCode := t)
      case TitleField => v.(Title := t)
      case RevisionField => v.(Revision := t)
      case StatusField => v.(Status := t)
      case IssuePurposeField => v.(IssuePurpose := t)
      case ApprovalCodeField => v.(ApprovalCode := t)
      case NotesField => v.(Notes := t)
  }

  /** A change sets the named field and leaves every other one as it was. */
  lemma ApplyChangesOnlyField(v: Values, c: Change, g: TextField)
    ensures c.SetText? ==> Get(Apply(v, c), g) == (if g == c.field then c.text else Get(v, g))
    ensures c.SetText? ==> Apply(v, c).AssignedToId == v.AssignedToId
    ensures c.SetAssignedTo? ==> Get(Apply(v, c), g) == Get(v, g) && Apply(v, c).AssignedToId == c.id
  {
  }

  /** What the Assigned To picker's `onChange` can hand over: persona objects, or plain numbers. */
  datatype PickerArg = PersonaArg(id: Option<string>) | NumberArg(n: JsNumber)

  /**
   * `handleAssignedToChange` as written: `Number(users[0].id)`. The picker
   * reports plain numbers, and a number has no `id` property, so that reads
   * `Number(undefined)`, which is NaN.
   */
  function AssignedToAsWritten(users: seq<PickerArg>): (id: Option<JsNumber>)
    ensures users == [] ==> id.None?
    ensures users != [] && users[0].PersonaArg? ==> id == Some(IdToNumber(users[0].id))
    ensures users != [] && users[0].NumberArg? ==> id == Some(NaN)
  {
    if |users| > 0 then
      match users[0]
      case PersonaArg(pid) => Some(IdToNumber(pid))
      case NumberArg(_) => Some(NaN)
    else None
  }

  /** The picker hands over the numbers it reports. */
  function AsPickerArgs(userIds: seq<JsNumber>): (args: seq<PickerArg>)
    ensures |args| == |userIds|
    ensures forall i :: 0 <= i < |args| ==> args[i] == NumberArg(userIds[i])
  {
    if userIds == [] then [] else [NumberArg(userIds[0])] + AsPickerArgs(userIds[1..])
  }

  /** As written, picking any user leaves the form invalid, whatever the text fields hold. */
  lemma PickedUserNeverValidates(v: Values, userIds: seq<JsNumber>)
    requires userIds != []
    ensures !IsValid(Apply(v, SetAssignedTo(AssignedToAsWritten(AsPickerArgs(userIds)))))
  {
  }

  /** The concrete case: the picker reports user 7, and the stored id is NaN. */
  lemma PickedUserSevenBecomesNaN()
    ensures AssignedToAsWritten(AsPickerArgs([Num(7)])) == Some(NaN)
  {
  }

  /** `handleAssignedToChange` as intended: the first reported number, or none. */
  function AssignedToFromIds(userIds: seq<JsNumber>): (id: Option<JsNumber>)
    ensures userIds == [] ==> id.None?
    ensures userIds != [] ==> id == Some(userIds[0])
  {
    if |userIds| > 0 then Some(userIds[0]) else None
  }

  /** `values.AssignedToId ? [values.AssignedToId] : []`, the ids the picker is synced from. */
  function PickerSelectedIds(v: Values): (ids: seq<int>)
    ensures AssignedTruthy(v.AssignedToId) ==> ids == [v.AssignedToId.value.n]
    ensures !AssignedTruthy(v.AssignedToId) ==> ids == []
  {
    if AssignedTruthy(v.AssignedToId) then [v.AssignedToId.value.n] else []
  }

  /**
   * With the intended handler, picking a user with a non-zero numeric id
   * stores that number, so the assignee is set and validity rests on the text
   * fields alone.
   */
  lemma PickedUserValidates(v: Values, user: PeoplePicker.Persona)
    requires IdToNumber(user.id).Num? && IdToNumber(user.id).n != 0
    ensures var after := Apply(v, SetAssignedTo(AssignedToFromIds(PeoplePicker.SelectedIds([user]))));
      && after.AssignedToId == Some(IdToNumber(user.id))
      && PickerSelectedIds(after) == [IdToNumber(user.id).n]
      && (IsValid(after) <==> Filled(v.DocumentCode) && Filled(v.Title) && Filled(v.Revision)
                              && Filled(v.Status) && Filled(v.IssuePurpose) && Filled(v.ApprovalCode))
  {
    assert PeoplePicker.SelectedIds([user])[0] == IdToNumber(user.id);
  }

  /**
   * Syncing the picker from the stored id then selects exactly the picked
   * user again, when the loaded users have canonical, distinct ids.
   */
  lemma PickedUserStaysSelected(v: Values, usersList: seq<PeoplePicker.Persona>, k: int)
    requires 0 <= k < |usersList|
    requires forall i :: 0 <= i < |usersList| ==> PeoplePicker.CanonicalId(usersList[i])
    requires forall i, j :: 0 <= i < j < |usersList| ==> usersList[i].id != usersList[j].id
    requires IdToNumber(usersList[k].id) != Num(0)
    ensures var after := Apply(v, SetAssignedTo(AssignedToFromIds(PeoplePicker.SelectedIds([usersList[k]]))));
      Seqs.Filter(usersList, (u: PeoplePicker.Persona) => PeoplePicker.IsSelectedBy(u, PickerSelectedIds(after))) == [usersList[k]]
  {
    var user := usersList[k];
    assert PeoplePicker.CanonicalId(user);
    PickedUserValidates(v, user);
    var reported := PeoplePicker.SelectedIds([user]);
    assert reported == [IdToNumber(user.id)];
    assert PeoplePicker.Numbers(reported) == [IdToNumber(user.id).n] by {
      assert reported[1..] == [];
    }
    Seqs.SubsequenceSingleton(usersList, k);
    PeoplePicker.SyncRestoresSelection(usersList, [user]);
  }

  /** The form's state. */
  class FormState {
    var values: Values
    var touched: bool
    var formError: Option<string>
    /** The values handed to `onSubmit`, one entry per call. */
    var submitted: seq<Values>

    constructor(init: InitialValues)
      ensures values == Initial(init) && !touched && formError.None? && submitted == []
    {
      values := Initial(init);
      touched := false;
      formError := None;
      submitted := [];
    }

    /** The error banner shows once a save was tried and an error is set. */
    predicate ShowsError()
      reads this
    {
      touched && formError.Some? && formError.value != ""
    }

    method HandleChange(c: Change)
      modifies this
      ensures values == Apply(old(values), c)
      ensures touched == old(touched) && formError == old(formError) && submitted == old(submitted)
    {
      values := Apply(values, c);
    }

    /** The picker's `onChange`, with the handler reading the reported numbers directly. */
    method HandleAssignedToChange(userIds: seq<JsNumber>)
      modifies this
      ensures values == old(values).(AssignedToId := AssignedToFromIds(userIds))
      ensures touched == old(touched) && formError == old(formError) && submitted == old(submitted)
    {
      HandleChange(SetAssignedTo(if |userIds| > 0 then Some(userIds[0]) else None));
    }

    /** `handleSave`: invalid values set the message and submit nothing; valid ones clear it and submit exactly the values. */
    method HandleSave()
      modifies this
      ensures touched && values == old(values)
      ensures !IsValid(values) ==> formError == Some(RequiredMessage) && submitted == old(submitted)
      ensures IsValid(values) ==> formError.None? && submitted == old(submitted) + [values]
    {
      touched := true;
      if !IsValid(values) {
        formError := Some(RequiredMessage);
        return;
      }
      formError := None;
      submitted := submitted + [values];
    }
  }
}
