/**
 * The Distribution Lists tab. The `ProjectCode` lookup is dereferenced
 * without a guard, so one row without it leaves the tab with no items; the
 * four subscription flags default to false and render as Yes/No.
 */
module DistributionLists {
  import opened JsValues
  import opened ListItems

  datatype RawEntry = RawEntry(
    ProjectCode: Option<RawLookup>,
    ContactEmail: Option<string>,
    Company: Option<string>,
    Role: Option<string>,
    ReceiveTransmittals: Option<bool>,
    ReceiveNotifications: Option<bool>,
    ReceiveReminders: Option<bool>,
    IsActive: Option<bool>,
    Modified: Option<string>,
    Created: Option<string>,
    Author: Option<RawLookup>,
    Editor: Option<RawLookup>)

  datatype EntryItem = EntryItem(
    ProjectCode: string,
    ContactEmail: string,
    Company: string,
    Role: string,
    ReceiveTransmittals: bool,
    ReceiveNotifications: bool,
    ReceiveReminders: bool,
    IsActive: bool,
    Modified: string,
    Created: string,
    CreatedBy: Option<UserRef>,
    ModifiedBy: Option<UserRef>)

  /** `lookup ? { Id, Title } : undefined`. */
  function RefOf(l: Option<RawLookup>): (r: Option<UserRef>)
    ensures r.Some? <==> l.Some?
    ensures r.Some? ==> r.value.Id == l.value.Id && r.value.Title == l.value.Title
  {
    match l
    case None => None
    case Some(u) => Some(UserRefOf(u))
  }

  /** The per-row mapping; `None` when the row throws on a missing `ProjectCode`. */
  function MapEntry(raw: RawEntry): (r: Option<EntryItem>)
    ensures r.None? <==> raw.ProjectCode.None?
    ensures r.Some? ==> r.value.ProjectCode == OrEmpty(raw.ProjectCode.value.ProjectCode)
    ensures r.Some? ==> r.value.ContactEmail == OrEmpty(raw.ContactEmail)
    ensures r.Some? ==> r.value.Company == OrEmpty(raw.Company)
    ensures r.Some? ==> r.value.Role == OrEmpty(raw.Role)
    ensures r.Some? ==> r.value.Modified == OrEmpty(raw.Modified)
    ensures r.Some? ==> r.value.Created == OrEmpty(raw.Created)
    ensures r.Some? ==> (r.value.ReceiveTransmittals <==> raw.ReceiveTransmittals == Some(true))
    ensures r.Some? ==> (r.value.ReceiveNotifications <==> raw.ReceiveNotifications == Some(true))
    ensures r.Some? ==> (r.value.ReceiveReminders <==> raw.ReceiveReminders == Some(true))
    ensures r.Some? ==> (r.value.IsActive <==> raw.IsActive == Some(true))
    ensures r.Some? ==> r.value.CreatedBy == RefOf(raw.Author) && r.value.ModifiedBy == RefOf(raw.Editor)
  {
    match raw.ProjectCode
    case None => None
    case Some(project) =>
      Some(EntryItem(
        OrEmpty(project.ProjectCode),
        OrEmpty(raw.ContactEmail),
        OrEmpty(raw.Company),
        OrEmpty(raw.Role),
        OrFalse(raw.ReceiveTransmittals),
        OrFalse(raw.ReceiveNotifications),
        OrFalse(raw.ReceiveReminders),
        OrFalse(raw.IsActive),
        OrEmpty(raw.Modified),
        OrEmpty(raw.Created),
        RefOf(raw.Author),
        RefOf(raw.Editor)))
  }

  /** A raw row carrying every field of `e`, under a project lookup with that code. */
  function RawOf(e: EntryItem): RawEntry {
    RawEntry(
      Some(EmptyLookup.(ProjectCode := Some(e.ProjectCode))),
      Some(e.ContactEmail), Some(e.Company), Some(e.Role),
      Some(e.ReceiveTransmittals), Some(e.ReceiveNotifications),
      Some(e.ReceiveReminders), Some(e.IsActive),
      Some(e.Modified), Some(e.Created),
      match e.CreatedBy
        case None => None
        case Some(u) => Some(EmptyLookup.(Id := u.Id, Title := u.Title)),
      match e.ModifiedBy
        case None => None
        case Some(u) => Some(EmptyLookup.(Id := u.Id, Title := u.Title)))
  }

  /** A fully populated row maps back to the item it came from. */
  lemma MapEntryRoundTrip(e: EntryItem)
    ensures MapEntry(RawOf(e)) == Some(e)
  {
    var raw := RawOf(e);
    assert RefOf(raw.Author) == e.CreatedBy && RefOf(raw.Editor) == e.ModifiedBy;
  }

  /** The fetch: every row mapped, or no items when the request or any row failed. */
  function LoadEntries(data: Option<seq<RawEntry>>): (items: seq<EntryItem>)
    ensures data.None? ==> items == []
    ensures data.Some? && (exists i :: 0 <= i < |data.value| && data.value[i].ProjectCode.None?) ==> items == []
    ensures data.Some? && (forall i :: 0 <= i < |data.value| ==> data.value[i].ProjectCode.Some?) ==>
      |items| == |data.value| && forall i :: 0 <= i < |items| ==> Some(items[i]) == MapEntry(data.value[i])
  {
    LoadOrEmpty(data, MapEntry)
  }

  /** The four flag cells, in column order. */
  function FlagCells(e: EntryItem): (cells: seq<string>)
    ensures |cells| == 4
    ensures cells[0] == "Yes" <==> e.ReceiveTransmittals
    ensures cells[1] == "Yes" <==> e.ReceiveNotifications
    ensures cells[2] == "Yes" <==> e.ReceiveReminders
    ensures cells[3] == "Yes" <==> e.IsActive
    ensures forall i :: 0 <= i < 4 ==> cells[i] == "Yes" || cells[i] == "No"
  {
    [YesNo(e.ReceiveTransmittals), YesNo(e.ReceiveNotifications), YesNo(e.ReceiveReminders), YesNo(e.IsActive)]
  }

  /** A row whose flags were all missing renders four "No" cells. */
  lemma MissingFlagsRenderNo(raw: RawEntry)
    requires raw.ProjectCode.Some?
    requires raw.ReceiveTransmittals.None? && raw.ReceiveNotifications.None?
    requires raw.ReceiveReminders.None? && raw.IsActive.None?
    ensures FlagCells(MapEntry(raw).value) == ["No", "No", "No", "No"]
  {
  }
}
