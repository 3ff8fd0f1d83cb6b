/**
 * The Projects tab: the raw project item mapped to an `IProjectItem`, the
 * new-project and edit-project forms with their required-field and date
 * checks, the ribbon's buttons for a selection, and the delete loop over the
 * selected projects. Service calls and dates are parameters.
 */
module Projects {
  import opened JsValues
  import opened ListItems
  import PeoplePicker
  import Seqs

  /** A raw project list item, with the `ProjectManager`, `Author` and `Editor` lookups expanded. */
  datatype RawProject = RawProject(
    Id: Option<int>,
    ProjectCode: Option<string>,
    Title: Option<string>,
    Customer: Option<string>,
    ProjectManager: Option<RawLookup>,
    Status: Option<string>,
    StartDate: Option<string>,
    EndDate: Option<string>,
    Notes: Option<string>,
    Modified: Option<string>,
    Created: Option<string>,
    Author: Option<RawLookup>,
    Editor: Option<RawLookup>)

  /** The `ProjectManager` object of an item. */
  datatype ManagerRef = ManagerRef(Title: string, Id: Option<int>, Picture: Option<string>)

  datatype ProjectItem = ProjectItem(
    Id: Option<int>,
    ProjectCode: string,
    Title: string,
    Customer: string,
    ProjectManager: ManagerRef,
    Status: string,
    StartDate: string,
    EndDate: string,
    Notes: string,
    Modified: string,
    Created: string,
    CreatedBy: string,
    ModifiedBy: string)

  /** `item.ProjectManager?.Id || undefined`. */
  function ManagerId(raw: RawProject): (id: Option<int>)
    ensures id.Some? <==> raw.ProjectManager.Some? && IdTruthy(raw.ProjectManager.value.Id)
    ensures id.Some? ==> id == raw.ProjectManager.value.Id
  {
    if raw.ProjectManager.Some? then TruthyId(raw.ProjectManager.value.Id) else None
  }

  /** One row, given the manager's picture. */
  function MapProject(raw: RawProject, picture: Option<string>): (p: ProjectItem)
    ensures p.Id == raw.Id
    ensures p.ProjectCode == OrEmpty(raw.ProjectCode)
    ensures p.Title == OrEmpty(raw.Title)
    ensures p.Customer == OrEmpty(raw.Customer)
    ensures p.Status == OrEmpty(raw.Status)
    ensures p.StartDate == OrEmpty(raw.StartDate)
    ensures p.EndDate == OrEmpty(raw.EndDate)
    ensures p.Modified == OrEmpty(raw.Modified)
    ensures p.Created == OrEmpty(raw.Created)
    ensures !TextTruthy(raw.Notes) ==> p.Notes == ""
    ensures p.Notes == CleanNotes(raw.Notes)
    ensures p.ProjectManager.Title == TitleOr(raw.ProjectManager)
    ensures p.ProjectManager.Id == ManagerId(raw) && p.ProjectManager.Picture == picture
    ensures p.CreatedBy == TitleOr(raw.Author) && p.ModifiedBy == TitleOr(raw.Editor)
  {
    ProjectItem(
      raw.Id,
      OrEmpty(raw.ProjectCode),
      OrEmpty(raw.Title),
      OrEmpty(raw.Customer),
      ManagerRef(TitleOr(raw.ProjectManager), ManagerId(raw), picture),
      OrEmpty(raw.Status),
      OrEmpty(raw.StartDate),
      OrEmpty(raw.EndDate),
      CleanNotes(raw.Notes),
      OrEmpty(raw.Modified),
      OrEmpty(raw.Created),
      TitleOr(raw.Author),
      TitleOr(raw.Editor))
  }

  /** A raw item carrying every field of `p`. */
  function RawOf(p: ProjectItem): RawProject {
    RawProject(
      p.Id, Some(p.ProjectCode), Some(p.Title), Some(p.Customer),
      Some(EmptyLookup.(Id := p.ProjectManager.Id, Title := Some(p.ProjectManager.Title), Picture := p.ProjectManager.Picture)),
      Some(p.Status), Some(p.StartDate), Some(p.EndDate), Some(p.Notes),
      Some(p.Modified), Some(p.Created),
      Some(TitleLookup(p.CreatedBy)), Some(TitleLookup(p.ModifiedBy)))
  }

  /** An item with clean notes and a non-zero (or absent) manager id survives a trip through the list. */
  lemma MapProjectRoundTrip(p: ProjectItem)
    requires CleanText(p.Notes)
    requires p.ProjectManager.Id != Some(0)
    ensures MapProject(RawOf(p), p.ProjectManager.Picture) == p
  {
    var raw := RawOf(p);
    CleanNotesKeepsClean(raw.Notes);
    assert CleanNotes(raw.Notes) == p.Notes;
    assert TitleOr(raw.ProjectManager) == p.ProjectManager.Title;
    assert TitleOr(raw.Author) == p.CreatedBy && TitleOr(raw.Editor) == p.ModifiedBy;
  }

  /** The Notes column is always clean. */
  lemma ProjectNotesClean(raw: RawProject, picture: Option<string>)
    ensures CleanText(MapProject(raw, picture).Notes)
  {
    CleanNotesIsClean(raw.Notes);
  }

  /** The picture fetched for a row: looked up by the manager's id, and only when that id is truthy. */
  function ManagerPicture(raw: RawProject, pictureById: int -> PictureResult): (r: PictureResult)
    ensures ManagerId(raw).None? ==> r == Picture(None)
    ensures ManagerId(raw).Some? ==> r == pictureById(ManagerId(raw).value)
  {
    match ManagerId(raw)
    case None => Picture(None)
    case Some(id) => pictureById(id)
  }

  /** A row of `fetchProjects`: fails when its picture lookup rejects. */
  function MapFetched(raw: RawProject, pictureById: int -> PictureResult): Option<ProjectItem> {
    match ManagerPicture(raw, pictureById)
    case LookupFailed => None
    case Picture(url) => Some(MapProject(raw, url))
  }

  /** `fetchProjects`: every row with its picture, or no items when the request or any lookup failed. */
  function LoadProjects(data: Option<seq<RawProject>>, pictureById: int -> PictureResult): (items: seq<ProjectItem>)
    ensures data.None? ==> items == []
    ensures data.Some? && (exists i :: 0 <= i < |data.value| && ManagerPicture(data.value[i], pictureById).LookupFailed?) ==>
      items == []
    ensures data.Some? && (forall i :: 0 <= i < |data.value| ==> ManagerPicture(data.value[i], pictureById).Picture?) ==>
      |items| == |data.value| &&
      forall i :: 0 <= i < |items| ==>
        items[i] == MapProject(data.value[i], ManagerPicture(data.value[i], pictureById).url)
  {
    LoadOrEmpty(data, (r: RawProject) => MapFetched(r, pictureById))
  }

  /** `item.ProjectManager?.Picture || undefined`. */
  function StoredPicture(raw: RawProject): (url: Option<string>)
    ensures url.Some? <==> raw.ProjectManager.Some? && TextTruthy(raw.ProjectManager.value.Picture)
    ensures url.Some? ==> url == raw.ProjectManager.value.Picture
  {
    if raw.ProjectManager.Some? then OrElse(raw.ProjectManager.value.Picture, None) else None
  }

  /** The list refresh after a delete or an edit: no picture lookups, and no row can fail. */
  function ReloadItems(rows: seq<RawProject>): (items: seq<ProjectItem>)
    ensures |items| == |rows|
    ensures forall i :: 0 <= i < |rows| ==> items[i] == MapProject(rows[i], StoredPicture(rows[i]))
  {
    LoadOrEmpty(Some(rows), (r: RawProject) => Some(MapProject(r, StoredPicture(r))))
  }

  /** The new-project and edit-project form fields. */
  datatype ProjectForm = ProjectForm(
    ProjectCode: string,
    Title: string,
    Customer: string,
    ProjectManagerId: Option<int>,
    ProjectManagerTitle: string,
    Status: string,
    StartDate: string,
    EndDate: string,
    Notes: string)

  /** The all-empty form the handlers reset to. */
  const EmptyForm := ProjectForm("", "", "", None, "", "", "", "", "")

  /** The edit form: the project's id and its fields. */
  datatype EditForm = EditForm(Id: Option<int>, form: ProjectForm)

  const EmptyEdit := EditForm(None, EmptyForm)

  const RequiredMessage: string := "Compila tutti i campi obbligatori prima di salvare."
  const DateMessage: string := "La data di fine non può essere precedente alla data di inizio."
  const CreateErrorMessage: string := "Errore durante la creazione del progetto."
  const EditErrorMessage: string := "Errore durante la modifica del progetto."

  /** How a save attempt's checks end. */
  datatype SaveCheck = Accepted | MissingRequired | EndBeforeStart

  /** The five required fields are all truthy; the manager id must be present and non-zero. */
  predicate RequiredFilled(f: ProjectForm) {
    f.ProjectCode != "" && f.Title != "" && f.Customer != "" && f.Status != "" && IdTruthy(f.ProjectManagerId)
  }

  /**
   * `new Date(end) < new Date(start)`, with the date parser as an oracle
   * (`None` for an invalid date, which compares false).
   */
  predicate EndBefore(start: Option<int>, end: Option<int>) {
    start.Some? && end.Some? && end.value < start.value
  }

  /** The checks both save handlers run, in order: required fields, then the dates when both are given. */
  function Validate(f: ProjectForm, parseDate: string -> Option<int>): SaveCheck {
    if !RequiredFilled(f) then MissingRequired
    else if f.StartDate != "" && f.EndDate != "" && EndBefore(parseDate(f.StartDate), parseDate(f.EndDate)) then EndBeforeStart
    else Accepted
  }

  /**
   * A form is accepted exactly when every required field is filled and the
   * end date is not before the start date; equal dates, a missing date and an
   * unparsable date all pass the date check.
   */
  lemma ValidateSpec(f: ProjectForm, parseDate: string -> Option<int>)
    ensures Validate(f, parseDate) == MissingRequired <==>
      f.ProjectCode == "" || f.Title == "" || f.Customer == "" || f.Status == ""
      || f.ProjectManagerId.None? || f.ProjectManagerId == Some(0)
    ensures Validate(f, parseDate) == Accepted <==>
      RequiredFilled(f) &&
      (f.StartDate == "" || f.EndDate == "" || parseDate(f.StartDate).None? || parseDate(f.EndDate).None?
       || parseDate(f.StartDate).value <= parseDate(f.EndDate).value)
    ensures RequiredFilled(f) && f.StartDate != "" && parseDate(f.StartDate).Some? && f.StartDate == f.EndDate ==>
      Validate(f, parseDate) == Accepted
  {
  }

  /** The fields sent to `addProject` and `updateProject`. */
  datatype ProjectFields = ProjectFields(
    ProjectCode: string,
    Title: string,
    Customer: string,
    ProjectManagerId: Option<int>,
    Status: string,
    StartDate: string,
    EndDate: string,
    Notes: string)

  function FieldsOf(f: ProjectForm): (r: ProjectFields)
    ensures r.ProjectCode == f.ProjectCode && r.Title == f.Title && r.Customer == f.Customer
    ensures r.ProjectManagerId == f.ProjectManagerId && r.Status == f.Status
    ensures r.StartDate == f.StartDate && r.EndDate == f.EndDate && r.Notes == f.Notes
  {
    ProjectFields(f.ProjectCode, f.Title, f.Customer, f.ProjectManagerId, f.Status, f.StartDate, f.EndDate, f.Notes)
  }

  /** A call to the projects service, recorded in the order it is made. */
  datatype ServiceCall = AddProject(fields: ProjectFields) | UpdateProject(id: Option<int>, fields: ProjectFields) | DeleteProject(deletedId: int)

  /** The ribbon's buttons. */
  datatype RibbonButton = NewButton | EditButton | DeleteButton

  /** The buttons offered for a selection of `n` items, in ribbon order. */
  function RibbonActions(n: nat): (r: seq<RibbonButton>)
    ensures |r| >= 1 && r[0] == NewButton
    ensures EditButton in r <==> n == 1
    ensures DeleteButton in r <==> n > 0
    ensures forall i, j :: 0 <= i < j < |r| ==> r[i] != r[j]
  {
    [NewButton] + (if n == 1 then [EditButton] else []) + (if n > 0 then [DeleteButton] else [])
  }

  /** The edit form filled from the one selected project. */
  function EditFormOf(item: ProjectItem): (e: EditForm)
    ensures e.Id == item.Id
    ensures e.form.ProjectManagerId == TruthyId(item.ProjectManager.Id)
    ensures e.form.ProjectCode == item.ProjectCode && e.form.Title == item.Title && e.form.Customer == item.Customer
    ensures e.form.ProjectManagerTitle == item.ProjectManager.Title && e.form.Status == item.Status
    ensures e.form.StartDate == item.StartDate && e.form.EndDate == item.EndDate && e.form.Notes == item.Notes
  {
    EditForm(item.Id, ProjectForm(
      item.ProjectCode, item.Title, item.Customer, TruthyId(item.ProjectManager.Id),
      item.ProjectManager.Title, item.Status, item.StartDate, item.EndDate, item.Notes))
  }

  /** A project loaded from the list passes the required-field check once edited exactly when it had every required field. */
  lemma EditFormOfLoaded(raw: RawProject, picture: Option<string>)
    ensures var f := EditFormOf(MapProject(raw, picture)).form;
      RequiredFilled(f) <==>
        TextTruthy(raw.ProjectCode) && TextTruthy(raw.Title) && TextTruthy(raw.Customer) && TextTruthy(raw.Status)
        && raw.ProjectManager.Some? && IdTruthy(raw.ProjectManager.value.Id)
  {
  }

  /** The manager picker's `onChange`: `userIds[0] ? Number(userIds[0]) : undefined`. */
  function ManagerFromPicker(userIds: seq<JsNumber>): (id: Option<int>)
    ensures id.Some? <==> |userIds| > 0 && NumberTruthy(userIds[0])
    ensures id.Some? ==> userIds[0] == Num(id.value)
  {
    if |userIds| > 0 && NumberTruthy(userIds[0]) then Some(userIds[0].n) else None
  }

  /** `typeof ProjectManagerId === 'number' ? [ProjectManagerId] : []`. */
  function ManagerSelectedIds(f: ProjectForm): (ids: seq<int>)
    ensures f.ProjectManagerId.Some? ==> ids == [f.ProjectManagerId.value]
    ensures f.ProjectManagerId.None? ==> ids == []
  {
    if f.ProjectManagerId.Some? then [f.ProjectManagerId.value] else []
  }

  /**
   * Picking a manager stores its numeric id, which fills the required
   * manager field and is handed back to the picker as its selection.
   */
  lemma ManagerPickRoundTrip(f: ProjectForm, user: PeoplePicker.Persona)
    requires NumberTruthy(IdToNumber(user.id))
    ensures var g := f.(ProjectManagerId := ManagerFromPicker(PeoplePicker.SelectedIds([user])));
      && IdTruthy(g.ProjectManagerId)
      && ManagerSelectedIds(g) == [IdToNumber(user.id).n]
  {
    assert PeoplePicker.SelectedIds([user])[0] == IdToNumber(user.id);
  }

  /** `if (item.Id)` over the selection: the ids deleted, in selection order. */
  function DeleteTargets(selected: seq<ProjectItem>): (ids: seq<int>)
    ensures |ids| <= |selected|
    ensures forall i :: 0 <= i < |ids| ==> ids[i] != 0
    decreases |selected|
  {
    if selected == [] then []
    else (if IdTruthy(selected[0].Id) then [selected[0].Id.value] else []) + DeleteTargets(selected[1..])
  }

  /** `item.Id` is truthy. */
  predicate HasId(item: ProjectItem) {
    IdTruthy(item.Id)
  }

  /** `items.map(item => item.Id)` for items known to carry one. */
  function IdsOf(items: seq<ProjectItem>): (ids: seq<int>)
    ensures |ids| == |items|
    decreases |items|
  {
    if items == [] then [] else [items[0].Id.GetOr(0)] + IdsOf(items[1..])
  }

  /**
   * The targets are exactly `selected.filter(item => item.Id).map(item => item.Id)`:
   * every item with an id, none without, in selection order.
   */
  lemma {:induction false} DeleteTargetsSpec(selected: seq<ProjectItem>)
    ensures DeleteTargets(selected) == IdsOf(Seqs.Filter(selected, HasId))
    decreases |selected|
  {
    if selected != [] {
      DeleteTargetsSpec(selected[1..]);
      var rest := Seqs.Filter(selected[1..], HasId);
      if HasId(selected[0]) {
        assert Seqs.Filter(selected, HasId) == [selected[0]] + rest;
        assert ([selected[0]] + rest)[1..] == rest;
      } else {
        assert Seqs.Filter(selected, HasId) == rest;
      }
    }
  }

  /** When every selected item has an id, each of them is deleted, in order. */
  lemma {:induction false} DeleteTargetsAllIds(selected: seq<ProjectItem>)
    requires forall i :: 0 <= i < |selected| ==> IdTruthy(selected[i].Id)
    ensures |DeleteTargets(selected)| == |selected|
    ensures forall i :: 0 <= i < |selected| ==> IdTruthy(selected[i].Id) && DeleteTargets(selected)[i] == selected[i].Id.value
    decreases |selected|
  {
    if selected != [] {
      DeleteTargetsAllIds(selected[1..]);
    }
  }

  /** Items without an id are skipped: the targets are the ids of the items that have one. */
  lemma {:induction false} DeleteTargetsMembers(selected: seq<ProjectItem>, i: int)
    requires 0 <= i < |selected| && IdTruthy(selected[i].Id)
    ensures selected[i].Id.value in DeleteTargets(selected)
    decreases |selected|
  {
    if i > 0 {
      assert selected[1..][i - 1] == selected[i];
      DeleteTargetsMembers(selected[1..], i - 1);
    }
  }

  /**
   * The awaited deletes in order: a rejected delete stops the loop (the
   * `catch` leaves the page as it was). The ids attempted, and whether all
   * succeeded.
   */
  function DeleteRun(targets: seq<int>, fails: int -> bool): (seq<int>, bool)
    decreases |targets|
  {
    if targets == [] then ([], true)
    else if fails(targets[0]) then ([targets[0]], false)
    else
      var (rest, ok) := DeleteRun(targets[1..], fails);
      ([targets[0]] + rest, ok)
  }

  /**
   * All succeed exactly when no target is rejected, and then every target was
   * attempted; otherwise the attempts stop right after the first rejected one.
   */
  lemma {:induction false} DeleteRunSpec(targets: seq<int>, fails: int -> bool)
    ensures DeleteRun(targets, fails).1 <==> forall i :: 0 <= i < |targets| ==> !fails(targets[i])
    ensures DeleteRun(targets, fails).1 ==> DeleteRun(targets, fails).0 == targets
    ensures !DeleteRun(targets, fails).1 ==>
      exists k :: 0 <= k < |targets| && DeleteRun(targets, fails).0 == targets[..k + 1] && fails(targets[k])
        && forall j :: 0 <= j < k ==> !fails(targets[j])
    decreases |targets|
  {
    if targets != [] && !fails(targets[0]) {
      DeleteRunSpec(targets[1..], fails);
      var (rest, ok) := DeleteRun(targets[1..], fails);
      if ok {
        assert targets == [targets[0]] + targets[1..];
        forall i | 0 <= i < |targets|
          ensures !fails(targets[i])
        {
          if i > 0 {
            assert targets[i] == targets[1..][i - 1];
          }
        }
      } else {
        var k :| 0 <= k < |targets[1..]| && rest == targets[1..][..k + 1] && fails(targets[1..][k])
          && forall j :: 0 <= j < k ==> !fails(targets[1..][j]);
        assert [targets[0]] + rest == targets[..k + 2];
        forall j | 0 <= j < k + 1
          ensures !fails(targets[j])
        {
          if j > 0 {
            assert targets[j] == targets[1..][j - 1];
          }
        }
      }
    } else if targets != [] {
      assert [targets[0]] == targets[..1];
    }
  }

  /** The `for` loop of `handleDeleteSelected`, with each delete's outcome as an oracle over the id. */
  method IssueDeletes(selected: seq<ProjectItem>, fails: int -> bool) returns (attempted: seq<int>, ok: bool)
    ensures (attempted, ok) == DeleteRun(DeleteTargets(selected), fails)
  {
    attempted := [];
    ok := true;
    var i := 0;
    assert selected[0..] == selected;
    var whole := DeleteRun(DeleteTargets(selected), fails);
    assert attempted + whole.0 == whole.0;
    while i < |selected| && ok
      invariant 0 <= i <= |selected|
      invariant ok ==> var (rest, restOk) := DeleteRun(DeleteTargets(selected[i..]), fails);
        (attempted + rest, restOk) == DeleteRun(DeleteTargets(selected), fails)
      invariant !ok ==> (attempted, ok) == DeleteRun(DeleteTargets(selected), fails)
      decreases |selected| - i
    {
      var item := selected[i];
      assert selected[i..][1..] == selected[i + 1..];
      var later := DeleteTargets(selected[i + 1..]);
      if IdTruthy(item.Id) {
        var id := item.Id.value;
        var here := [id] + later;
        assert DeleteTargets(selected[i..]) == here;
        assert here[0] == id && here[1..] == later;
        if fails(id) {
          assert DeleteRun(here, fails) == ([id], false);
          attempted := attempted + [id];
          ok := false;
        } else {
          var (rest, restOk) := DeleteRun(later, fails);
          assert DeleteRun(here, fails) == ([id] + rest, restOk);
          assert attempted + ([id] + rest) == (attempted + [id]) + rest;
          attempted := attempted + [id];
        }
      } else {
        assert DeleteTargets(selected[i..]) == later;
      }
      i := i + 1;
    }
    if ok {
      assert selected[i..] == [];
      assert attempted + [] == attempted;
    }
  }

  /** The calls a run of deletes makes. */
  function DeleteCalls(ids: seq<int>): (calls: seq<ServiceCall>)
    ensures |calls| == |ids|
    ensures forall i :: 0 <= i < |ids| ==> calls[i] == DeleteProject(ids[i])
  {
    if ids == [] then [] else [DeleteProject(ids[0])] + DeleteCalls(ids[1..])
  }

  /** Everything the component keeps in state, plus the service calls it has made. */
  datatype PageState = PageState(
    items: seq<ProjectItem>,
    loading: bool,
    isModalOpen: bool,
    isEditModalOpen: bool,
    saving: bool,
    formError: Option<string>,
    dateError: Option<string>,
    showError: bool,
    touched: bool,
    showDeleteConfirm: bool,
    statusOptions: seq<string>,
    selectedItems: seq<ProjectItem>,
    editProjectId: Option<int>,
    newProject: ProjectForm,
    editProject: EditForm,
    calls: seq<ServiceCall>)

  /** The state at mount, before the first fetch completes. */
  const Initial := PageState([], true, false, false, false, None, None, false, false, false, [], [], None, EmptyForm, EmptyEdit, [])

  /** The error pop-up's text: `formError || dateError || ''`. */
  function ErrorText(s: PageState): string {
    if s.formError.Some? && s.formError.value != "" then s.formError.value else OrEmpty(s.dateError)
  }

  /** The mount-time fetch has completed. */
  function Fetched(s: PageState, data: Option<seq<RawProject>>, pictureById: int -> PictureResult): PageState {
    s.(items := LoadProjects(data, pictureById), loading := false)
  }

  // The steps the handlers below are made of, one per group of state setters.

  function MarkTouched(s: PageState): PageState {
    s.(touched := true)
  }

  function ClearErrors(s: PageState): PageState {
    s.(dateError := None, formError := None, showError := false)
  }

  function ShowFormError(s: PageState, message: string): PageState {
    s.(formError := Some(message), showError := true)
  }

  function ShowDateError(s: PageState): PageState {
    s.(dateError := Some(DateMessage), showError := true)
  }

  function BeginSave(s: PageState, call: ServiceCall): PageState {
    s.(saving := true, calls := s.calls + [call])
  }

  function EndSave(s: PageState): PageState {
    s.(saving := false, loading := false)
  }

  /** Close the new-project modal and empty its form. */
  function ResetNew(s: PageState): PageState {
    s.(isModalOpen := false, editProjectId := None, newProject := EmptyForm, loading := true)
  }

  /** Close the edit modal and empty its form. */
  function ResetEdit(s: PageState): PageState {
    s.(isEditModalOpen := false, editProject := EmptyEdit, loading := true)
  }

  function Reloaded(s: PageState, rows: seq<RawProject>): PageState {
    s.(items := ReloadItems(rows))
  }

  /** The call the new-project save makes: an update when an edit id is set, an add otherwise. */
  function NewProjectCall(s: PageState): ServiceCall {
    if IdTruthy(s.editProjectId) then UpdateProject(s.editProjectId, FieldsOf(s.newProject))
    else AddProject(FieldsOf(s.newProject))
  }

  /**
   * `handleSaveProject` run to completion: the checks, then the service call;
   * on success the modal closes, the form resets and the list is fetched again.
   */
  function SaveNew(s: PageState, parseDate: string -> Option<int>, saveOk: bool,
                   data: Option<seq<RawProject>>, pictureById: int -> PictureResult): PageState
  {
    var s1 := ClearErrors(MarkTouched(s));
    match Validate(s.newProject, parseDate)
    case MissingRequired => ShowFormError(s1, RequiredMessage)
    case EndBeforeStart => ShowDateError(s1)
    case Accepted =>
      var s2 := BeginSave(s1, NewProjectCall(s));
      EndSave(if saveOk then Fetched(ResetNew(s2), data, pictureById) else ShowFormError(s2, CreateErrorMessage))
  }

  /**
   * The edit modal's `onSave`: the same checks, then `updateProject` for the
   * edited id; on success the modal closes, the form resets and the list is
   * reloaded, and a failed reload shows the edit error.
   */
  function SaveEdit(s: PageState, parseDate: string -> Option<int>, updateOk: bool, data: Option<seq<RawProject>>): PageState {
    var s1 := ClearErrors(s);
    match Validate(s.editProject.form, parseDate)
    case MissingRequired => ShowFormError(s1, RequiredMessage)
    case EndBeforeStart => ShowDateError(s1)
    case Accepted =>
      var s2 := BeginSave(s1, UpdateProject(s.editProject.Id, FieldsOf(s.editProject.form)));
      EndSave(
        if !updateOk then ShowFormError(s2, EditErrorMessage)
        else if data.None? then ShowFormError(ResetEdit(s2), EditErrorMessage)
        else Reloaded(ResetEdit(s2), data.value))
  }

  function BeginDeletes(s: PageState, attempted: seq<int>): PageState {
    s.(saving := true, calls := s.calls + DeleteCalls(attempted))
  }

  function ClearSelection(s: PageState): PageState {
    s.(selectedItems := [], showDeleteConfirm := false)
  }

  function EndDeletes(s: PageState): PageState {
    s.(saving := false)
  }

  /**
   * `handleDeleteSelected` run to completion: the deletes, then, when all
   * succeeded and the reload answered, the new list with the selection and
   * the dialog cleared; any failure leaves the page as it was.
   */
  function DeleteSelected(s: PageState, fails: int -> bool, data: Option<seq<RawProject>>): PageState {
    var run := DeleteRun(DeleteTargets(s.selectedItems), fails);
    var s1 := BeginDeletes(s, run.0);
    EndDeletes(if run.1 && data.Some? then ClearSelection(Reloaded(s1, data.value)) else s1)
  }

  function ShowNewForm(s: PageState): PageState {
    s.(newProject := EmptyForm, touched := false, isModalOpen := true)
  }

  /** The status effect: an open new-project modal with no edit id gets status `Active`, the only option. */
  function StatusDefault(s: PageState): PageState {
    if s.isModalOpen && !IdTruthy(s.editProjectId) then
      s.(newProject := s.newProject.(Status := "Active"), statusOptions := ["Active"])
    else s
  }

  /** "New Project", followed by the status effect. */
  function OpenNew(s: PageState): PageState {
    StatusDefault(ShowNewForm(s))
  }

  function CancelNew(s: PageState): PageState {
    s.(newProject := EmptyForm, touched := false, isModalOpen := false)
  }

  /** "Edit Project", offered for a single selected item. */
  function OpenEdit(s: PageState): PageState
    requires |s.selectedItems| == 1
  {
    s.(editProject := EditFormOf(s.selectedItems[0]), isEditModalOpen := true)
  }

  function CancelEdit(s: PageState): PageState {
    s.(isEditModalOpen := false, editProject := EmptyEdit)
  }

  /** A save whose checks fail makes no call, keeps the modal and the form, and shows the check's message. */
  lemma SaveNewRejected(s: PageState, parseDate: string -> Option<int>, saveOk: bool,
                        data: Option<seq<RawProject>>, pictureById: int -> PictureResult)
    requires Validate(s.newProject, parseDate) != Accepted
    ensures var t := SaveNew(s, parseDate, saveOk, data, pictureById);
      && t.calls == s.calls && t.isModalOpen == s.isModalOpen && t.newProject == s.newProject
      && t.items == s.items && t.touched && t.showError
      && ErrorText(t) == (if Validate(s.newProject, parseDate) == MissingRequired then RequiredMessage else DateMessage)
  {
    var s1 := ClearErrors(MarkTouched(s));
    if Validate(s.newProject, parseDate) == MissingRequired {
      assert SaveNew(s, parseDate, saveOk, data, pictureById) == ShowFormError(s1, RequiredMessage);
    } else {
      assert SaveNew(s, parseDate, saveOk, data, pictureById) == ShowDateError(s1);
    }
  }

  /** An accepted save makes exactly one call with the form's fields; on success the modal closes and the form is empty. */
  lemma SaveNewAccepted(s: PageState, parseDate: string -> Option<int>, saveOk: bool,
                        data: Option<seq<RawProject>>, pictureById: int -> PictureResult)
    requires Validate(s.newProject, parseDate) == Accepted
    ensures var t := SaveNew(s, parseDate, saveOk, data, pictureById);
      && |t.calls| == |s.calls| + 1 && t.calls[..|s.calls|] == s.calls
      && t.calls[|s.calls|].fields == FieldsOf(s.newProject)
      && (saveOk ==> !t.isModalOpen && t.editProjectId.None? && t.newProject == EmptyForm && !t.showError
                     && t.items == LoadProjects(data, pictureById))
      && (!saveOk ==> t.newProject == s.newProject && t.isModalOpen == s.isModalOpen && ErrorText(t) == CreateErrorMessage)
      && !t.saving && !t.loading
  {
  }

  /** The edit save is gated the same way: no `updateProject` call unless the checks pass. */
  lemma SaveEditGated(s: PageState, parseDate: string -> Option<int>, updateOk: bool, data: Option<seq<RawProject>>)
    ensures var t := SaveEdit(s, parseDate, updateOk, data);
      && (Validate(s.editProject.form, parseDate) != Accepted ==>
            t.calls == s.calls && t.isEditModalOpen == s.isEditModalOpen && t.editProject == s.editProject && t.showError)
      && (Validate(s.editProject.form, parseDate) == Accepted ==>
            t.calls == s.calls + [UpdateProject(s.editProject.Id, FieldsOf(s.editProject.form))])
      && (Validate(s.editProject.form, parseDate) == Accepted && updateOk ==>
            !t.isEditModalOpen && t.editProject == EmptyEdit)
  {
  }

  /**
   * Deleting calls `deleteProject` once per selected item with an id, in
   * order, when none is rejected; then the selection and the dialog clear.
   */
  lemma DeleteSelectedSpec(s: PageState, fails: int -> bool, data: Option<seq<RawProject>>)
    requires forall i :: 0 <= i < |DeleteTargets(s.selectedItems)| ==> !fails(DeleteTargets(s.selectedItems)[i])
    ensures var t := DeleteSelected(s, fails, data);
      && t.calls == s.calls + DeleteCalls(DeleteTargets(s.selectedItems))
      && (data.Some? ==> t.selectedItems == [] && !t.showDeleteConfirm && t.items == ReloadItems(data.value))
      && (data.None? ==> t.selectedItems == s.selectedItems && t.items == s.items)
  {
    DeleteRunAllAccepted(DeleteTargets(s.selectedItems), fails);
  }

  /** With no target rejected, the run attempts them all and succeeds. */
  lemma DeleteRunAllAccepted(targets: seq<int>, fails: int -> bool)
    requires forall i :: 0 <= i < |targets| ==> !fails(targets[i])
    ensures DeleteRun(targets, fails) == (targets, true)
  {
    DeleteRunSpec(targets, fails);
  }

  /** With some target rejected, the run fails having attempted at most every target. */
  lemma DeleteRunSomeRejected(targets: seq<int>, fails: int -> bool)
    requires exists i :: 0 <= i < |targets| && fails(targets[i])
    ensures !DeleteRun(targets, fails).1 && |DeleteRun(targets, fails).0| <= |targets|
  {
    DeleteRunSpec(targets, fails);
  }

  /** A rejected delete stops the loop and leaves the items and the selection as they were. */
  lemma DeleteSelectedRejected(s: PageState, fails: int -> bool, data: Option<seq<RawProject>>)
    requires exists i :: 0 <= i < |DeleteTargets(s.selectedItems)| && fails(DeleteTargets(s.selectedItems)[i])
    ensures var t := DeleteSelected(s, fails, data);
      && t.items == s.items && t.selectedItems == s.selectedItems && t.showDeleteConfirm == s.showDeleteConfirm
      && |t.calls| <= |s.calls| + |DeleteTargets(s.selectedItems)|
  {
    DeleteRunSomeRejected(DeleteTargets(s.selectedItems), fails);
  }

  /** What the user and the services can do on the page. */
  datatype Event =
    | FetchDone(data: Option<seq<RawProject>>, pictureById: int -> PictureResult)
    | Select(selection: seq<ProjectItem>)
    | ClickNew
    | ClickCancelNew
    | EditNewForm(form: ProjectForm)
    | ClickSaveNew(parseDate: string -> Option<int>, saveOk: bool, reload: Option<seq<RawProject>>, reloadPictures: int -> PictureResult)
    | ClickEdit
    | ClickCancelEdit
    | EditEditForm(form: ProjectForm)
    | ClickSaveEdit(parseDate: string -> Option<int>, updateOk: bool, data: Option<seq<RawProject>>)
    | ClickDelete
    | ClickCancelDelete
    | ConfirmDelete(fails: int -> bool, data: Option<seq<RawProject>>)

  /** The state after one event; a button that is not on screen changes nothing. */
  function Next(s: PageState, e: Event): PageState {
    match e
    case FetchDone(data, pictures) => Fetched(s, data, pictures)
    case Select(sel) => s.(selectedItems := sel)
    case ClickNew => OpenNew(s)
    case ClickCancelNew => CancelNew(s)
    case EditNewForm(f) => s.(newProject := f)
    case ClickSaveNew(parse, ok, reload, pictures) => SaveNew(s, parse, ok, reload, pictures)
    case ClickEdit => if |s.selectedItems| == 1 then OpenEdit(s) else s
    case ClickCancelEdit => CancelEdit(s)
    case EditEditForm(f) => s.(editProject := s.editProject.(form := f))
    case ClickSaveEdit(parse, ok, data) => SaveEdit(s, parse, ok, data)
    case ClickDelete => if |s.selectedItems| > 0 then s.(showDeleteConfirm := true) else s
    case ClickCancelDelete => s.(showDeleteConfirm := false)
    case ConfirmDelete(fails, data) => DeleteSelected(s, fails, data)
  }

  function Run(s: PageState, events: seq<Event>): PageState
    decreases |events|
  {
    if events == [] then s else Run(Next(s, events[0]), events[1..])
  }

  /** No single event sets an edit id. */
  lemma NextKeepsEditIdUnset(s: PageState, e: Event)
    requires s.editProjectId.None?
    ensures Next(s, e).editProjectId.None?
  {
    if e.ClickSaveNew? {
      SaveNewKeepsEditIdUnset(s, e.parseDate, e.saveOk, e.reload, e.reloadPictures);
    } else if e.ClickSaveEdit? {
      assert Next(s, e) == SaveEdit(s, e.parseDate, e.updateOk, e.data);
      SaveEditKeepsEditId(s, e.parseDate, e.updateOk, e.data);
    } else if e.ConfirmDelete? {
      assert Next(s, e) == DeleteSelected(s, e.fails, e.data);
      DeleteKeepsEditId(s, e.fails, e.data);
    } else if e.ClickNew? {
      assert Next(s, e) == OpenNew(s);
    }
  }

  lemma SaveNewKeepsEditIdUnset(s: PageState, parseDate: string -> Option<int>, saveOk: bool,
                                data: Option<seq<RawProject>>, pictureById: int -> PictureResult)
    requires s.editProjectId.None?
    ensures SaveNew(s, parseDate, saveOk, data, pictureById).editProjectId.None?
  {
  }

  lemma SaveEditKeepsEditId(s: PageState, parseDate: string -> Option<int>, updateOk: bool, data: Option<seq<RawProject>>)
    ensures SaveEdit(s, parseDate, updateOk, data).editProjectId == s.editProjectId
  {
    var s1 := ClearErrors(s);
    match Validate(s.editProject.form, parseDate)
    case MissingRequired =>
    case EndBeforeStart =>
    case Accepted =>
      var s2 := BeginSave(s1, UpdateProject(s.editProject.Id, FieldsOf(s.editProject.form)));
      EditOutcomeKeepsEditId(s2, updateOk, data);
  }

  lemma EditOutcomeKeepsEditId(s: PageState, updateOk: bool, data: Option<seq<RawProject>>)
    ensures (if !updateOk then ShowFormError(s, EditErrorMessage)
      else if data.None? then ShowFormError(ResetEdit(s), EditErrorMessage)
      else Reloaded(ResetEdit(s), data.value)).editProjectId == s.editProjectId
  {
  }

  lemma DeleteKeepsEditId(s: PageState, fails: int -> bool, data: Option<seq<RawProject>>)
    ensures DeleteSelected(s, fails, data).editProjectId == s.editProjectId
  {
  }

  /** No handler ever sets an edit id, so it stays unset. */
  lemma {:induction false} EditIdNeverSet(s: PageState, events: seq<Event>)
    requires s.editProjectId.None?
    ensures Run(s, events).editProjectId.None?
    decreases |events|
  {
    if events != [] {
      NextKeepsEditIdUnset(s, events[0]);
      EditIdNeverSet(Next(s, events[0]), events[1..]);
    }
  }

  /**
   * So from mount on, the new-project save only ever calls `addProject`:
   * its `updateProject` branch is unreachable, and a freshly opened form has
   * status `Active`.
   */
  lemma NewProjectOnlyAdds(events: seq<Event>, parseDate: string -> Option<int>, saveOk: bool,
                           data: Option<seq<RawProject>>, pictureById: int -> PictureResult)
    ensures var s := Run(Initial, events);
      && OpenNew(s).newProject == EmptyForm.(Status := "Active")
      && (Validate(s.newProject, parseDate) == Accepted ==>
            SaveNew(s, parseDate, saveOk, data, pictureById).calls == s.calls + [AddProject(FieldsOf(s.newProject))])
  {
    EditIdNeverSet(Initial, events);
  }

  /** The component: its state hooks as fields, and the handlers that update them. */
  class ProjectsPage {
    var items: seq<ProjectItem>
    var loading: bool
    var isModalOpen: bool
    var isEditModalOpen: bool
    var saving: bool
    var formError: Option<string>
    var dateError: Option<string>
    var showError: bool
    var touched: bool
    var showDeleteConfirm: bool
    var statusOptions: seq<string>
    var selectedItems: seq<ProjectItem>
    var editProjectId: Option<int>
    var newProject: ProjectForm
    var editProject: EditForm
    /** The service calls made so far. */
    var calls: seq<ServiceCall>

    function State(): PageState
      reads this
    {
      PageState(items, loading, isModalOpen, isEditModalOpen, saving, formError, dateError, showError, touched,
                showDeleteConfirm, statusOptions, selectedItems, editProjectId, newProject, editProject, calls)
    }

    constructor()
      ensures State() == Initial
    {
      items := [];
      loading := true;
      isModalOpen := false;
      isEditModalOpen := false;
      saving := false;
      formError := None;
      dateError := None;
      showError := false;
      touched := false;
      showDeleteConfirm := false;
      statusOptions := [];
      selectedItems := [];
      editProjectId := None;
      newProject := EmptyForm;
      editProject := EmptyEdit;
      calls := [];
    }

    /** `fetchProjects`, with the service's answer and the picture lookups as parameters. */
    method FetchProjects(data: Option<seq<RawProject>>, pictureById: int -> PictureResult)
      modifies this
      ensures State() == Fetched(old(State()), data, pictureById)
    {
      items := LoadProjects(data, pictureById);
      loading := false;
    }

    method SetTouched()
      modifies this
      ensures State() == MarkTouched(old(State()))
    {
      touched := true;
    }

    method ResetErrors()
      modifies this
      ensures State() == ClearErrors(old(State()))
    {
      dateError := None;
      formError := None;
      showError := false;
    }

    method SetFormError(message: string)
      modifies this
      ensures State() == ShowFormError(old(State()), message)
    {
      formError := Some(message);
      showError := true;
    }

    method SetDateError()
      modifies this
      ensures State() == ShowDateError(old(State()))
    {
      dateError := Some(DateMessage);
      showError := true;
    }

    method StartSave(call: ServiceCall)
      modifies this
      ensures State() == BeginSave(old(State()), call)
    {
      saving := true;
      calls := calls + [call];
    }

    method FinishSave()
      modifies this
      ensures State() == EndSave(old(State()))
    {
      saving := false;
      loading := false;
    }

    method CloseNewModal()
      modifies this
      ensures State() == ResetNew(old(State()))
    {
      isModalOpen := false;
      editProjectId := None;
      newProject := EmptyForm;
      loading := true;
    }

    method CloseEditModal()
      modifies this
      ensures State() == ResetEdit(old(State()))
    {
      isEditModalOpen := false;
      editProject := EmptyEdit;
      loading := true;
    }

    method SetReloaded(rows: seq<RawProject>)
      modifies this
      ensures State() == Reloaded(old(State()), rows)
    {
      items := ReloadItems(rows);
    }

    method HandleSaveProject(parseDate: string -> Option<int>, saveOk: bool,
                             data: Option<seq<RawProject>>, pictureById: int -> PictureResult)
      modifies this
      ensures State() == SaveNew(old(State()), parseDate, saveOk, data, pictureById)
    {
      ghost var s0 := State();
      SetTouched();
      ResetErrors();
      var check := Validate(newProject, parseDate);
      if check == MissingRequired {
        SetFormError(RequiredMessage);
        return;
      }
      if check == EndBeforeStart {
        SetDateError();
        return;
      }
      var call := if IdTruthy(editProjectId) then UpdateProject(editProjectId, FieldsOf(newProject)) else AddProject(FieldsOf(newProject));
      assert call == NewProjectCall(s0);
      StartSave(call);
      if saveOk {
        CloseNewModal();
        FetchProjects(data, pictureById);
      } else {
        SetFormError(CreateErrorMessage);
      }
      FinishSave();
    }

    /** The edit modal's `onSave`. */
    method HandleEditSave(parseDate: string -> Option<int>, updateOk: bool, data: Option<seq<RawProject>>)
      modifies this
      ensures State() == SaveEdit(old(State()), parseDate, updateOk, data)
    {
      ResetErrors();
      var check := Validate(editProject.form, parseDate);
      if check == MissingRequired {
        SetFormError(RequiredMessage);
        return;
      }
      if check == EndBeforeStart {
        SetDateError();
        return;
      }
      StartSave(UpdateProject(editProject.Id, FieldsOf(editProject.form)));
      if updateOk {
        CloseEditModal();
        if data.Some? {
          SetReloaded(data.value);
        } else {
          SetFormError(EditErrorMessage);
        }
      } else {
        SetFormError(EditErrorMessage);
      }
      FinishSave();
    }

    method HandleDeleteSelected(fails: int -> bool, data: Option<seq<RawProject>>)
      modifies this
      ensures State() == DeleteSelected(old(State()), fails, data)
    {
      var attempted, ok := IssueDeletes(selectedItems, fails);
      StartDeletes(attempted);
      if ok && data.Some? {
        SetReloaded(data.value);
        ResetSelection();
      }
      FinishDeletes();
    }

    method StartDeletes(attempted: seq<int>)
      modifies this
      ensures State() == BeginDeletes(old(State()), attempted)
    {
      saving := true;
      calls := calls + DeleteCalls(attempted);
    }

    method ResetSelection()
      modifies this
      ensures State() == ClearSelection(old(State()))
    {
      selectedItems := [];
      showDeleteConfirm := false;
    }

    method FinishDeletes()
      modifies this
      ensures State() == EndDeletes(old(State()))
    {
      saving := false;
    }

    method OpenNewForm()
      modifies this
      ensures State() == ShowNewForm(old(State()))
    {
      newProject := EmptyForm;
      touched := false;
      isModalOpen := true;
    }

    /** The effect that runs when the new-project modal opens. */
    method ApplyStatusDefault()
      modifies this
      ensures State() == StatusDefault(old(State()))
    {
      if isModalOpen && !IdTruthy(editProjectId) {
        newProject := newProject.(Status := "Active");
        statusOptions := ["Active"];
      }
    }

    /** "New Project", then the status effect it triggers. */
    method ClickNewProject()
      modifies this
      ensures State() == OpenNew(old(State()))
    {
      OpenNewForm();
      ApplyStatusDefault();
    }

    method CancelNewProject()
      modifies this
      ensures State() == CancelNew(old(State()))
    {
      newProject := EmptyForm;
      touched := false;
      isModalOpen := false;
    }

    method ClickEditProject()
      requires |selectedItems| == 1
      modifies this
      ensures State() == OpenEdit(old(State()))
    {
      editProject := EditFormOf(selectedItems[0]);
      isEditModalOpen := true;
    }

    method CancelEditProject()
      modifies this
      ensures State() == CancelEdit(old(State()))
    {
      isEditModalOpen := false;
      editProject := EmptyEdit;
    }
  }
}
